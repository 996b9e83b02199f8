/**
  The evdev record filter of recept.cpp: `update_pos` and `filter`, with the
  two per-axis smoothers `avg_x` and `avg_y` that persist from record to
  record.

  A pen or eraser coming into range (an EV_KEY press of BTN_TOOL_PEN or
  BTN_TOOL_RUBBER) empties both smoothers; an EV_ABS report of ABS_X or
  ABS_Y is fed through its axis's smoother and the smoothed value is written
  back into the record; every EV_ABS record has its value field re-encoded,
  and nothing else in any record is ever written.
 */
module Recept {

  import opened Ints
  import opened Layout
  import opened Smoother

  /** Event types. */
  const EV_KEY: uint8 := 1
  const EV_ABS: uint8 := 3
  /** EV_KEY codes that start a gesture: the pen or the eraser comes into range. */
  const BTN_TOOL_PEN: uint16 := 320
  const BTN_TOOL_RUBBER: uint16 := 321
  /** EV_ABS codes of the two smoothed axes. */
  const ABS_X: uint16 := 0
  const ABS_Y: uint16 := 1

  /** The states of `avg_x` and `avg_y`. */
  datatype Axes = Axes(x: EwmaState, y: EwmaState)

  /** Both stored values can be read as `uint32_t`. */
  predicate AxesInRange(axes: Axes)
  {
    InRange(axes.x.mValue) && InRange(axes.y.mValue)
  }

  /** The record reports that the pen or the eraser came into range. */
  predicate IsToolIn(rec: Record)
  {
    && RecordType(rec) == EV_KEY
    && ((RecordCode(rec) == BTN_TOOL_PEN && RecordValue(rec) == 1)
        || (RecordCode(rec) == BTN_TOOL_RUBBER && RecordValue(rec) == 1))
  }

  /** Both smoothers emptied. */
  function Reset(axes: Axes): Axes
  {
    Axes(Cleared(axes.x), Cleared(axes.y))
  }

  /** One call of `filter`: the smoother states and the record afterwards. */
  function Step(alpha: real, axes: Axes, rec: Record): (r: (Axes, Record))
    requires 0.0 < alpha < 1.0
    requires AxesInRange(axes)
    ensures AxesInRange(r.0)
    ensures r.1[..VALUE_OFFSET] == rec[..VALUE_OFFSET]
    ensures RecordType(rec) != EV_ABS ==> r.1 == rec
  {
    var value := RecordValue(rec);
    var axes' := if IsToolIn(rec) then Reset(axes) else axes;
    if RecordType(rec) != EV_ABS then
      (axes', rec)
    else if RecordCode(rec) == ABS_X then
      AddedInRange(alpha, axes'.x, value);
      var x := Added(alpha, axes'.x, value);
      (axes'.(x := x), WithValue(rec, Truncated(x.mValue)))
    else if RecordCode(rec) == ABS_Y then
      AddedInRange(alpha, axes'.y, value);
      var y := Added(alpha, axes'.y, value);
      (axes'.(y := y), WithValue(rec, Truncated(y.mValue)))
    else
      (axes', WithValue(rec, value))
  }

  /** `update_pos`: feed one sample to a smoother and read the smoothed value back. */
  method UpdatePos(avg: Ewma, value: uint32) returns (r: uint32)
    requires avg.Valid()
    modifies avg
    ensures avg.Valid()
    ensures avg.State() == Added(avg.alpha, old(avg.State()), value)
    ensures r == avg.Value()
  {
    avg.Add(value);
    r := avg.Value();
  }

  /** The filter with its two smoothers, which the source keeps as the
      static objects `avg_x` and `avg_y`. */
  class RecordFilter {
    const avgX: Ewma
    const avgY: Ewma

    ghost predicate Valid()
      reads this, avgX, avgY
    {
      && avgX != avgY
      && avgX.Valid() && avgY.Valid()
      && avgX.alpha == avgY.alpha
    }

    /** The states of both smoothers, as a value. */
    function State(): Axes
      reads this, avgX, avgY
    {
      Axes(avgX.State(), avgY.State())
    }

    /** Both smoothers built with the same coefficient, as the single
        `HALF_LIFE` constant of the source does. */
    constructor (alpha: real)
      requires 0.0 < alpha < 1.0
      ensures Valid() && fresh(avgX) && fresh(avgY)
      ensures avgX.alpha == alpha
      ensures State() == Axes(Initial, Initial)
    {
      avgX := new Ewma(alpha);
      avgY := new Ewma(alpha);
    }

    /** `filter(buf)` on one 16-byte record, in place. */
    method Filter(buf: array<uint8>)
      requires Valid()
      requires buf.Length == RECORD_SIZE
      modifies buf, avgX, avgY
      ensures Valid()
      ensures (State(), buf[..]) == Step(avgX.alpha, old(State()), old(buf[..]))
    {
      ghost var rec: Record := buf[..];
      var evType := buf[TYPE_OFFSET];
      var code := DecodeLE16(buf[CODE_OFFSET], buf[CODE_OFFSET + 1]);
      var value := DecodeLE32(buf[VALUE_OFFSET..RECORD_SIZE]);
      assert evType == RecordType(rec) && code == RecordCode(rec) && value == RecordValue(rec);

      if evType == EV_KEY && ((code == BTN_TOOL_PEN && value == 1) || (code == BTN_TOOL_RUBBER && value == 1)) {
        avgX.Clear();
        avgY.Clear();
      }

      if evType == EV_ABS {
        if code == ABS_X {
          value := UpdatePos(avgX, value);
        } else if code == ABS_Y {
          value := UpdatePos(avgY, value);
        }
        var bytes := EncodeLE32(value);
        buf[VALUE_OFFSET] := bytes[0];
        buf[VALUE_OFFSET + 1] := bytes[1];
        buf[VALUE_OFFSET + 2] := bytes[2];
        buf[VALUE_OFFSET + 3] := bytes[3];
        assert buf[..] == WithValue(rec, value);
      }
    }
  }

  /** A pen-in or eraser-in record empties both smoothers and passes through
      byte for byte. */
  lemma ToolInResets(alpha: real, axes: Axes, rec: Record)
    requires 0.0 < alpha < 1.0 && AxesInRange(axes)
    requires IsToolIn(rec)
    ensures Step(alpha, axes, rec) == (Reset(axes), rec)
    ensures Step(alpha, axes, rec).0.x.isEmpty && Step(alpha, axes, rec).0.y.isEmpty
  {
  }

  /** Any other record that is not EV_ABS (a key other than the two tools,
      a tool leaving range, a sync report, ...) changes nothing at all. */
  lemma OtherRecordsUntouched(alpha: real, axes: Axes, rec: Record)
    requires 0.0 < alpha < 1.0 && AxesInRange(axes)
    requires RecordType(rec) != EV_ABS && !IsToolIn(rec)
    ensures Step(alpha, axes, rec) == (axes, rec)
  {
  }

  /** An ABS_X report feeds the X smoother only, and the record carries the
      smoothed value, as a `uint32_t`, in place of the sample. */
  lemma AbsXRouted(alpha: real, axes: Axes, rec: Record)
    requires 0.0 < alpha < 1.0 && AxesInRange(axes)
    requires RecordType(rec) == EV_ABS && RecordCode(rec) == ABS_X
    ensures Step(alpha, axes, rec).0 == axes.(x := Added(alpha, axes.x, RecordValue(rec)))
    ensures RecordValue(Step(alpha, axes, rec).1) == Truncated(Step(alpha, axes, rec).0.x.mValue)
    ensures Step(alpha, axes, rec).1[..VALUE_OFFSET] == rec[..VALUE_OFFSET]
  {
  }

  /** An ABS_Y report feeds the Y smoother only, likewise. */
  lemma AbsYRouted(alpha: real, axes: Axes, rec: Record)
    requires 0.0 < alpha < 1.0 && AxesInRange(axes)
    requires RecordType(rec) == EV_ABS && RecordCode(rec) == ABS_Y
    ensures Step(alpha, axes, rec).0 == axes.(y := Added(alpha, axes.y, RecordValue(rec)))
    ensures RecordValue(Step(alpha, axes, rec).1) == Truncated(Step(alpha, axes, rec).0.y.mValue)
    ensures Step(alpha, axes, rec).1[..VALUE_OFFSET] == rec[..VALUE_OFFSET]
  {
  }

  /** Any other EV_ABS report (pressure, distance, tilt, ...) has its value
      re-encoded, which gives back the same bytes: the record and both
      smoothers are unchanged. */
  lemma OtherAbsUntouched(alpha: real, axes: Axes, rec: Record)
    requires 0.0 < alpha < 1.0 && AxesInRange(axes)
    requires RecordType(rec) == EV_ABS && RecordCode(rec) != ABS_X && RecordCode(rec) != ABS_Y
    ensures Step(alpha, axes, rec) == (axes, rec)
  {
    WithOwnValue(rec);
  }

  /** After a pen-in or eraser-in record, the first ABS_X report is emitted
      byte for byte as it came: its sample is taken verbatim. */
  lemma FirstXAfterToolInVerbatim(alpha: real, axes: Axes, toolIn: Record, rec: Record)
    requires 0.0 < alpha < 1.0 && AxesInRange(axes)
    requires IsToolIn(toolIn)
    requires RecordType(rec) == EV_ABS && RecordCode(rec) == ABS_X
    ensures Step(alpha, Step(alpha, axes, toolIn).0, rec).1 == rec
  {
    var reset := Step(alpha, axes, toolIn).0;
    assert reset == Reset(axes);
    FirstSampleVerbatim(alpha, axes.x, RecordValue(rec));
    WithOwnValue(rec);
  }

  /** After a pen-in or eraser-in record, two ABS_X reports with samples
      `v1` and `v2`: the first is emitted as `v1`, the second as the
      truncated blend of `v1` and `v2`, which lies between the two. */
  lemma TwoXAfterToolIn(alpha: real, axes: Axes, toolIn: Record, rec1: Record, rec2: Record)
    requires 0.0 < alpha < 1.0 && AxesInRange(axes)
    requires IsToolIn(toolIn)
    requires RecordType(rec1) == EV_ABS && RecordCode(rec1) == ABS_X
    requires RecordType(rec2) == EV_ABS && RecordCode(rec2) == ABS_X
    ensures var s1 := Step(alpha, Step(alpha, axes, toolIn).0, rec1);
            var s2 := Step(alpha, s1.0, rec2);
            var v1, v2 := RecordValue(rec1), RecordValue(rec2);
            && RecordValue(s1.1) == v1
            && RecordValue(s2.1) == Truncated(Blend(alpha, Sample(v1), Sample(v2)))
            && (v1 <= v2 ==> v1 <= RecordValue(s2.1) <= v2)
            && (v2 <= v1 ==> v2 <= RecordValue(s2.1) <= v1)
  {
    var v1, v2 := RecordValue(rec1), RecordValue(rec2);
    var s0 := Step(alpha, axes, toolIn).0;
    ToolInResets(alpha, axes, toolIn);
    AbsXRouted(alpha, s0, rec1);
    var s1 := Step(alpha, s0, rec1);
    FirstSampleVerbatim(alpha, axes.x, v1);
    assert s1.0.x == EwmaState(false, Sample(v1));
    AbsXRouted(alpha, s1.0, rec2);
    var m := Blend(alpha, Sample(v1), Sample(v2));
    assert Step(alpha, s1.0, rec2).0.x.mValue == m;
    BlendBetween(alpha, Sample(v1), Sample(v2));
  }
}
