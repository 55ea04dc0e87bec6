/** The tick-mark slider (`ui/MultiThumbSlider.kt`) and its plus and minus
    buttons (`ui/TicksSlider.kt`). A tick mark is a value on an integer
    range `first..last` drawn along a track `width` pixels wide; dragging a
    thumb moves its value with the pointer, and the buttons append or drop
    tick marks. */
module ThumbSlider {
  import opened Numerics
  import opened TimerUi
  import opened PhasePlan

  /** Lines 97, 105 and 128: where value `v` lies along the track. A range
      with `first == last` would divide by zero. */
  function ValueToOffset(v: real, range: TickRange, width: real): (r: real)
    requires range.first != range.last
    ensures v == range.first as real ==> r == 0.0
    ensures v == range.last as real ==> r == width
  {
    ((v - range.first as real) / (range.last - range.first) as real) * width
  }

  /** Line 110: the value at offset `o` along the track. A zero width would
      divide by zero. */
  function OffsetToValue(o: real, range: TickRange, width: real): (r: real)
    requires width != 0.0
    ensures o == 0.0 ==> r == range.first as real
    ensures o == width ==> r == range.last as real
  {
    (o / width) * (range.last - range.first) as real + range.first as real
  }

  /** The range's ends map to the track's ends. */
  lemma OffsetEnds(range: TickRange, width: real)
    requires range.first != range.last
    ensures ValueToOffset(range.first as real, range, width) == 0.0
    ensures ValueToOffset(range.last as real, range, width) == width
  {
  }

  /** On a proper range and track a larger value lies further along. */
  lemma ValueToOffsetIncreasing(v1: real, v2: real, range: TickRange, width: real)
    requires range.first < range.last && 0.0 < width && v1 < v2
    ensures ValueToOffset(v1, range, width) < ValueToOffset(v2, range, width)
  {
    var n := (range.last - range.first) as real;
    var a, b := v1 - range.first as real, v2 - range.first as real;
    assert b / n - a / n == (b - a) / n;
    assert 0.0 < (b - a) / n;
    assert ValueToOffset(v2, range, width) - ValueToOffset(v1, range, width) == ((b - a) / n) * width;
  }

  /** Value and offset are inverse maps of each other. */
  lemma OffsetRoundTrip(v: real, o: real, range: TickRange, width: real)
    requires range.first != range.last && width != 0.0
    ensures OffsetToValue(ValueToOffset(v, range, width), range, width) == v
    ensures ValueToOffset(OffsetToValue(o, range, width), range, width) == o
  {
    var n := (range.last - range.first) as real;
    var f := range.first as real;
    assert ValueToOffset(v, range, width) / width == (v - f) / n;
    assert ((v - f) / n) * n == v - f;
    assert OffsetToValue(o, range, width) - f == (o / width) * n;
    assert ((o / width) * n) / n == o / width;
  }

  /** `toThumbOffsets`: every tick mark's offset along the track. */
  function ThumbOffsets(values: seq<real>, range: TickRange, width: int): (r: seq<real>)
    requires range.first != range.last
    ensures |r| == |values|
    ensures forall i :: 0 <= i < |r| ==> r[i] == ValueToOffset(values[i], range, width as real)
  {
    seq(|values|, i requires 0 <= i < |values| => ValueToOffset(values[i], range, width as real))
  }

  /** Tick marks inside the range are drawn on the track. */
  lemma ThumbOffsetsOnTrack(values: seq<real>, range: TickRange, width: int)
    requires range.first < range.last && 0 <= width
    requires forall i :: 0 <= i < |values| ==> range.first as real <= values[i] <= range.last as real
    ensures forall i :: 0 <= i < |values| ==> 0.0 <= ThumbOffsets(values, range, width)[i] <= width as real
  {
    var n := (range.last - range.first) as real;
    forall i | 0 <= i < |values|
      ensures 0.0 <= ThumbOffsets(values, range, width)[i] <= width as real
    {
      var q := (values[i] - range.first as real) / n;
      assert 0.0 <= q <= 1.0;
      assert ThumbOffsets(values, range, width)[i] == q * width as real;
      assert 0.0 <= q * width as real;
      assert (1.0 - q) * width as real >= 0.0;
    }
  }

  /** Lines 59 and 69-71: one marker per integer of `first..last`, the
      `i`-th at `i / (last - first)` of the track. */
  function MarkerOffsets(range: TickRange, width: int): (r: seq<real>)
    requires range.first != range.last
    ensures |r| == if range.last < range.first then 0 else range.last - range.first + 1
    ensures forall i :: 0 <= i < |r| ==>
              r[i] == ValueToOffset((range.first + i) as real, range, width as real)
  {
    var n := if range.last < range.first then 0 else range.last - range.first + 1;
    seq(n, i requires 0 <= i < n => (i as real / (range.last - range.first) as real) * width as real)
  }

  /** Marker `i` sits exactly where a tick mark of value `first + i` is
      drawn, so the markers run from one end of the track to the other. */
  lemma MarkerOffsetsAreIntegerValues(range: TickRange, width: int)
    requires range.first < range.last
    ensures forall i :: 0 <= i < |MarkerOffsets(range, width)| ==>
              MarkerOffsets(range, width)[i] == ValueToOffset((range.first + i) as real, range, width as real)
    ensures MarkerOffsets(range, width)[0] == 0.0
    ensures MarkerOffsets(range, width)[range.last - range.first] == width as real
  {
    OffsetEnds(range, width as real);
    assert (range.first + (range.last - range.first)) as real == range.last as real;
  }

  /** Neighbouring markers are one `width / (last - first)` apart. */
  lemma MarkersEvenlySpaced(range: TickRange, width: int)
    requires range.first < range.last
    ensures forall i :: 0 <= i < |MarkerOffsets(range, width)| - 1 ==>
              MarkerOffsets(range, width)[i + 1] - MarkerOffsets(range, width)[i] ==
                width as real / (range.last - range.first) as real
  {
    var m := MarkerOffsets(range, width);
    var n := (range.last - range.first) as real;
    forall i | 0 <= i < |m| - 1
      ensures m[i + 1] - m[i] == width as real / n
    {
      assert m[i + 1] - m[i] == ((i + 1) as real / n - i as real / n) * width as real;
      assert (i + 1) as real / n - i as real / n == 1.0 / n;
    }
  }

  /** One drag event (lines 104-116): the thumb's offset moves by the
      pointer's position, is coerced onto the track, and turns back into a
      value; only the dragged entry is replaced. */
  function DragMove(values: seq<real>, index: nat, pointerX: real, range: TickRange, width: int): (r: seq<real>)
    requires index < |values| && range.first != range.last && 0 < width
    ensures |r| == |values|
    ensures forall i :: 0 <= i < |values| && i != index ==> r[i] == values[i]
  {
    var offset := ValueToOffset(values[index], range, width as real);
    var newOffset := Clamp(offset + pointerX, 0.0, width as real);
    values[index := OffsetToValue(newOffset, range, width as real)]
  }

  /** The dragged value always stays inside the range. */
  lemma DragMoveInRange(values: seq<real>, index: nat, pointerX: real, range: TickRange, width: int)
    requires index < |values| && range.first < range.last && 0 < width
    ensures range.first as real <= DragMove(values, index, pointerX, range, width)[index] <= range.last as real
  {
    var w := width as real;
    var newOffset := Clamp(ValueToOffset(values[index], range, w) + pointerX, 0.0, w);
    var q := newOffset / w;
    assert 0.0 <= q <= 1.0;
    assert q * (range.last - range.first) as real <= (range.last - range.first) as real;
  }

  /** While the moved offset stays on the track it is kept as it is: the new
      offset is the old one plus the pointer's x, which is measured inside
      the thumb's box (lines 94-99, beginning `thumbHeight` before the
      thumb), not from the thumb itself. */
  lemma DragMoveFollowsPointer(values: seq<real>, index: nat, pointerX: real, range: TickRange, width: int)
    requires index < |values| && range.first != range.last && 0 < width
    requires 0.0 <= ValueToOffset(values[index], range, width as real) + pointerX <= width as real
    ensures ValueToOffset(DragMove(values, index, pointerX, range, width)[index], range, width as real) ==
              ValueToOffset(values[index], range, width as real) + pointerX
  {
    var o := ValueToOffset(values[index], range, width as real) + pointerX;
    OffsetRoundTrip(0.0, o, range, width as real);
  }

  /** A moved offset past either end of the track is coerced back onto it,
      so the thumb stops at the last or the first value. */
  lemma DragMoveClampsToEnds(values: seq<real>, index: nat, pointerX: real, range: TickRange, width: int)
    requires index < |values| && range.first != range.last && 0 < width
    ensures width as real <= ValueToOffset(values[index], range, width as real) + pointerX ==>
              DragMove(values, index, pointerX, range, width)[index] == range.last as real
    ensures ValueToOffset(values[index], range, width as real) + pointerX <= 0.0 ==>
              DragMove(values, index, pointerX, range, width)[index] == range.first as real
  {
  }

  /** What the slider asks of its owner: new tick values, or rounding
      them. */
  datatype Callback = SetValues(values: seq<real>) | RoundValues

  /** A whole drag gesture on thumb `index`: every drag event reports the
      values with the dragged one moved, the owner's state feeding the
      next event, and the gesture's end asks once for rounding. */
  function DragGesture(values: seq<real>, index: nat, pointerXs: seq<real>, range: TickRange, width: int)
    : (r: seq<Callback>)
    requires index < |values| && range.first != range.last && 0 < width
    ensures |r| == |pointerXs| + 1
    ensures r[|pointerXs|] == RoundValues
    ensures forall k :: 0 <= k < |pointerXs| ==> r[k].SetValues? && |r[k].values| == |values|
    decreases |pointerXs|
  {
    if |pointerXs| == 0 then [RoundValues]
    else
      var next := DragMove(values, index, pointerXs[0], range, width);
      [SetValues(next)] + DragGesture(next, index, pointerXs[1..], range, width)
  }

  /** A report from a drag on thumb `index` of `values`: the other tick
      marks are where they were and the dragged one is inside the range. */
  predicate MovesOnly(c: Callback, values: seq<real>, index: nat, range: TickRange)
  {
    c.SetValues? && |c.values| == |values| && index < |values| &&
    (forall i :: 0 <= i < |values| && i != index ==> c.values[i] == values[i]) &&
    range.first as real <= c.values[index] <= range.last as real
  }

  /** Throughout a gesture only the dragged tick mark moves, and on a
      proper range it never leaves the range. */
  lemma {:induction false} DragGestureMovesOnlyIndex(values: seq<real>, index: nat, pointerXs: seq<real>,
                                                      range: TickRange, width: int)
    requires index < |values| && range.first < range.last && 0 < width
    ensures forall k :: 0 <= k < |pointerXs| ==>
              MovesOnly(DragGesture(values, index, pointerXs, range, width)[k], values, index, range)
    decreases |pointerXs|
  {
    if |pointerXs| > 0 {
      var next := DragMove(values, index, pointerXs[0], range, width);
      var rest := DragGesture(next, index, pointerXs[1..], range, width);
      var r := DragGesture(values, index, pointerXs, range, width);
      DragMoveInRange(values, index, pointerXs[0], range, width);
      DragGestureMovesOnlyIndex(next, index, pointerXs[1..], range, width);
      assert r == [SetValues(next)] + rest;
      forall k | 0 <= k < |pointerXs|
        ensures MovesOnly(r[k], values, index, range)
      {
        if k == 0 {
          assert r[k] == SetValues(next);
        } else {
          assert r[k] == rest[k - 1];
          assert MovesOnly(rest[k - 1], next, index, range);
        }
      }
    }
  }

  /** The "+" button (lines 41-47): while there are fewer tick marks than
      the range is wide, append the free spot the app picks, `spot`. */
  function AddTick(s: UiState, range: TickRange, spot: real): (r: UiState)
    ensures |s.thumbValues| < range.last - range.first ==> r.thumbValues == s.thumbValues + [spot]
    ensures range.last - range.first <= |s.thumbValues| ==> r == s
    ensures r == s.(thumbValues := r.thumbValues)
  {
    if |s.thumbValues| < range.last - range.first then SetThumbValues(s, s.thumbValues + [spot])
    else s
  }

  /** The "-" button (lines 27-29 and 67): drop the last tick mark, if any. */
  function RemoveTick(s: UiState): (r: UiState)
    ensures |s.thumbValues| == 0 ==> r == s
    ensures |s.thumbValues| > 0 ==> r.thumbValues + [s.thumbValues[|s.thumbValues| - 1]] == s.thumbValues
    ensures r == s.(thumbValues := r.thumbValues)
  {
    var v := s.thumbValues;
    SetThumbValues(s, if |v| == 0 then [] else v[..|v| - 1])
  }

  /** Neither button takes the number of tick marks past the range's width. */
  lemma TickCountBounded(s: UiState, range: TickRange, spot: real)
    requires |s.thumbValues| <= range.last - range.first
    ensures |AddTick(s, range, spot).thumbValues| <= range.last - range.first
    ensures |RemoveTick(s).thumbValues| <= range.last - range.first
  {
  }

  /** Removing a tick mark undoes adding one. */
  lemma RemoveUndoesAdd(s: UiState, range: TickRange, spot: real)
    requires |s.thumbValues| < range.last - range.first
    ensures RemoveTick(AddTick(s, range, spot)) == s
  {
    var v := s.thumbValues;
    assert (v + [spot])[..|v|] == v;
  }
}
