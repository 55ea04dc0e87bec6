/** The tables `MainScreen.kt` derives from the command table: the segment
    durations drawn on the dial, the audio-cue schedule, the range tick marks
    may occupy, the pruning of ticks that fall outside it, and which command
    of the list is highlighted at a given time. */
module PhasePlan {
  import opened Numerics
  import opened RealSeqs
  import opened Commands

  /** The dial length of one timed command: Fire lasts the shooting duration,
      every other command its table duration. */
  function SegmentDuration(c: Command, shootingDuration: real): (r: real)
    ensures c.Duration() >= 0 && c != Fire ==> IsWhole(r) && 0.0 <= r
    ensures 0.0 <= shootingDuration && c.Duration() >= 0 ==> 0.0 <= r
  {
    WholeOfInt(c.Duration());
    if c == Fire then shootingDuration else c.Duration() as real
  }

  /** Kotlin `map` of `SegmentDuration` over a list of commands. */
  function DurationsOf(cs: seq<Command>, shootingDuration: real): (r: seq<real>)
    ensures |r| == |cs|
    ensures forall i :: 0 <= i < |cs| ==> r[i] == SegmentDuration(cs[i], shootingDuration)
  {
    seq(|cs|, i requires 0 <= i < |cs| => SegmentDuration(cs[i], shootingDuration))
  }

  /** `segmentDurations`: one entry per timed command, in table order. */
  function SegmentDurations(shootingDuration: real): (r: seq<real>)
    ensures |r| == |Timed()|
    ensures r == [7.0, 3.0, shootingDuration, 3.0, 4.0, 2.0]
  {
    var t := Timed();
    assert t == [TenSecondsLeft, Ready, Fire, CeaseFire, UnloadWeapon, Visitation];
    DurationsOf(t, shootingDuration)
  }

  /** `totalDuration`: the sum of the segment durations. */
  function TotalDuration(shootingDuration: real): (r: real)
    ensures r == 19.0 + shootingDuration
  {
    var d := SegmentDurations(shootingDuration);
    assert d[5..][1..] == [];
    assert Sum(d[5..]) == 2.0;
    assert d[4..][1..] == d[5..];
    assert Sum(d[4..]) == 6.0;
    assert d[3..][1..] == d[4..];
    assert Sum(d[3..]) == 9.0;
    assert d[2..][1..] == d[3..];
    assert Sum(d[2..]) == 9.0 + shootingDuration;
    assert d[1..][1..] == d[2..];
    assert Sum(d[1..]) == 12.0 + shootingDuration;
    Sum(d)
  }

  /** The fixed table durations and the shooting time make up the total. */
  lemma {:induction false} TotalIsTableAndShootingTime(shootingDuration: real)
    ensures TotalDuration(shootingDuration) == FixedSeconds(Timed()) as real + shootingDuration
  {
    FixedTimedDurations();
  }

  /** One scheduled audio cue: the time it is due and the command it announces. */
  datatype Cue = Cue(time: real, command: Command)

  /** `audioCues`: a running clock that starts at 0 and advances by each
      command's duration, except that Fire advances by the truncated shooting
      time. */
  function AudioCues(shootingDuration: real): (r: seq<Cue>)
    ensures |r| == |Timed()|
    ensures forall i :: 0 <= i < |r| ==> r[i].command == Timed()[i]
    ensures r[0].time == 0.0 && r[1].time == 7.0 && r[2].time == 10.0
    ensures r[3].time == 10.0 + Trunc(shootingDuration) as real
    ensures r[4].time == 13.0 + Trunc(shootingDuration) as real
    ensures r[5].time == 17.0 + Trunc(shootingDuration) as real
  {
    var t0 := 0.0;
    var t1 := t0 + TenSecondsLeft.Duration() as real;
    var t2 := t1 + Ready.Duration() as real;
    var t3 := t2 + Trunc(shootingDuration) as real;
    var t4 := t3 + CeaseFire.Duration() as real;
    var t5 := t4 + UnloadWeapon.Duration() as real;
    [Cue(t0, TenSecondsLeft), Cue(t1, Ready), Cue(t2, Fire),
     Cue(t3, CeaseFire), Cue(t4, UnloadWeapon), Cue(t5, Visitation)]
  }

  /** Cue `i` is due when segment `i` of the dial starts, measured on the
      segment durations of the truncated shooting time. */
  lemma CuesStartSegments(shootingDuration: real)
    ensures forall i :: 0 <= i < |AudioCues(shootingDuration)| ==>
              AudioCues(shootingDuration)[i].time
                == Prefix(SegmentDurations(Trunc(shootingDuration) as real), i)
  {
    var d := SegmentDurations(Trunc(shootingDuration) as real);
    assert d[..0] == [];
    PrefixStep(d, 0);
    PrefixStep(d, 1);
    PrefixStep(d, 2);
    PrefixStep(d, 3);
    PrefixStep(d, 4);
  }

  /** For a non-negative shooting time the cues come in time order, and
      every cue is due before the drill ends. */
  lemma CueScheduleOrdered(shootingDuration: real)
    requires 0.0 <= shootingDuration
    ensures forall i, j :: 0 <= i < j < |AudioCues(shootingDuration)| ==>
              AudioCues(shootingDuration)[i].time <= AudioCues(shootingDuration)[j].time
    ensures forall i :: 0 <= i < |AudioCues(shootingDuration)| ==>
              AudioCues(shootingDuration)[i].time < TotalDuration(shootingDuration)
  {
  }

  /** `rangeOffset`: the seconds before Fire begins. */
  function RangeOffset(): (r: int)
    ensures r as real == Prefix(SegmentDurations(0.0), 2)
  {
    var d := SegmentDurations(0.0);
    assert d[..0] == [];
    PrefixStep(d, 0);
    PrefixStep(d, 1);
    TenSecondsLeft.Duration() + Ready.Duration()
  }

  /** The closed integer range a tick mark may occupy. */
  datatype TickRange = TickRange(first: int, last: int)

  /** `range`: from one second after Fire begins to one second before cease-fire
      ends, truncated. */
  function RangeFor(shootingDuration: real): (r: TickRange)
    ensures r.first == 11
    ensures r.last == Trunc(shootingDuration + 12.0)
  {
    TickRange(RangeOffset() + 1,
              Trunc(shootingDuration + RangeOffset() as real + CeaseFire.Duration() as real - 1.0))
  }

  /** Every whole second of the tick range falls strictly inside the Fire and
      cease-fire segments of the dial. */
  lemma RangeWithinFireAndCeaseFire(shootingDuration: real, k: int)
    requires 0.0 <= shootingDuration
    requires RangeFor(shootingDuration).first <= k <= RangeFor(shootingDuration).last
    ensures Prefix(SegmentDurations(shootingDuration), 2) < k as real
    ensures k as real < Prefix(SegmentDurations(shootingDuration), 4)
  {
    var d := SegmentDurations(shootingDuration);
    assert d[..0] == [];
    PrefixStep(d, 0);
    PrefixStep(d, 1);
    PrefixStep(d, 2);
    PrefixStep(d, 3);
  }

  /** A tick value rounds into the range. */
  predicate InRange(x: real, range: TickRange) {
    range.first <= RoundHalfUp(x) <= range.last
  }

  /** The prune effect: `filter { it.roundToInt() in range }`. */
  function Prune(thumbs: seq<real>, range: TickRange): (r: seq<real>)
    ensures |r| <= |thumbs|
    ensures forall x :: x in r <==> x in thumbs && InRange(x, range)
  {
    if |thumbs| == 0 then []
    else if InRange(thumbs[0], range) then [thumbs[0]] + Prune(thumbs[1..], range)
    else Prune(thumbs[1..], range)
  }

  /** Pruning distributes over concatenation; with the one-element case this
      pins `Prune` down as the order-preserving filter. */
  lemma {:induction false} PruneAppend(a: seq<real>, b: seq<real>, range: TickRange)
    ensures Prune(a + b, range) == Prune(a, range) + Prune(b, range)
    decreases |a|
  {
    if |a| == 0 {
      assert a + b == b;
    } else {
      assert (a + b)[1..] == a[1..] + b;
      PruneAppend(a[1..], b, range);
    }
  }

  /** A single tick is kept exactly when it rounds into the range. */
  lemma PruneOne(x: real, range: TickRange)
    ensures Prune([x], range) == if InRange(x, range) then [x] else []
  {
    assert [x][1..] == [];
  }

  /** Pruning twice with the same range prunes nothing more. */
  lemma {:induction false} PruneIdempotent(thumbs: seq<real>, range: TickRange)
    ensures Prune(Prune(thumbs, range), range) == Prune(thumbs, range)
    decreases |thumbs|
  {
    if |thumbs| > 0 {
      PruneIdempotent(thumbs[1..], range);
      if InRange(thumbs[0], range) {
        var rest := Prune(thumbs[1..], range);
        assert ([thumbs[0]] + rest)[1..] == rest;
      }
    }
  }

  /** The end of phase `j` on the cumulative time axis. */
  function PhaseEnd(d: seq<real>, j: nat): real
    requires j < |d|
  {
    Prefix(d, j + 1)
  }

  /** Phase `k` is the first phase that has not ended at time `t`. */
  predicate FirstOpenPhase(t: real, d: seq<real>, k: nat)
    requires k < |d|
  {
    t < PhaseEnd(d, k) && forall j :: 0 <= j < k ==> PhaseEnd(d, j) <= t
  }

  /** Every phase has ended at time `t`. */
  predicate AllPhasesEnded(t: real, d: seq<real>) {
    forall j :: 0 <= j < |d| ==> PhaseEnd(d, j) <= t
  }

  /** The loop of `calculateHighlightedIndex` from index `i`, with `acc` the
      time accumulated so far. */
  function HighlightFrom(t: real, d: seq<real>, i: nat, acc: real): (r: int)
    requires i <= |d| && acc == Prefix(d, i)
    requires forall j :: 0 <= j < i ==> PhaseEnd(d, j) <= t
    ensures (exists k: nat :: i <= k < |d| && FirstOpenPhase(t, d, k) && r == k + TenSecondsLeft.Ordinal())
            || (AllPhasesEnded(t, d) && r == Visitation.Ordinal())
    decreases |d| - i
  {
    if i == |d| then Visitation.Ordinal()
    else
      PrefixStep(d, i);
      var acc' := acc + d[i];
      if t < acc' then
        assert FirstOpenPhase(t, d, i);
        i + TenSecondsLeft.Ordinal()
      else
        HighlightFrom(t, d, i + 1, acc')
  }

  /** `calculateHighlightedIndex`: the command-list index of the first phase
      still open at time `t`, counted from TenSecondsLeft, or Visitation once
      every phase has ended. */
  function HighlightedIndex(t: real, d: seq<real>): (r: int)
    ensures (exists k: nat :: k < |d| && FirstOpenPhase(t, d, k) && r == k + 2)
            || (AllPhasesEnded(t, d) && r == 7)
  {
    assert d[..0] == [];
    HighlightFrom(t, d, 0, 0.0)
  }

  /** With at most six phases the highlighted index is a timed command. */
  lemma HighlightedIsTimed(t: real, d: seq<real>)
    requires |d| <= |Timed()|
    ensures 2 <= HighlightedIndex(t, d) <= 7
    ensures Entries()[HighlightedIndex(t, d)] in Timed()
  {
    var r := HighlightedIndex(t, d);
    assert Entries()[r] == Entries()[2..8][r - 2];
  }

  /** The first open phase is unique. */
  lemma FirstOpenPhaseUnique(t: real, d: seq<real>, k: nat, m: nat)
    requires k < |d| && m < |d|
    requires FirstOpenPhase(t, d, k) && FirstOpenPhase(t, d, m)
    ensures k == m
  {
  }

  /** As time advances the highlight never moves back up the list. */
  lemma HighlightMonotone(t1: real, t2: real, d: seq<real>)
    requires t1 <= t2
    requires |d| <= |Timed()|
    ensures HighlightedIndex(t1, d) <= HighlightedIndex(t2, d)
  {
    var r1, r2 := HighlightedIndex(t1, d), HighlightedIndex(t2, d);
    if !AllPhasesEnded(t2, d) {
      var k2: nat :| k2 < |d| && FirstOpenPhase(t2, d, k2) && r2 == k2 + 2;
      assert !AllPhasesEnded(t1, d) by {
        assert t1 < PhaseEnd(d, k2);
      }
      var k1: nat :| k1 < |d| && FirstOpenPhase(t1, d, k1) && r1 == k1 + 2;
      assert t1 < PhaseEnd(d, k2);
      assert k1 <= k2;
    }
  }
}
