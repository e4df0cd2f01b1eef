/** The X-55 raw-report parser of devices/x55_hidapi.py: five axes from the
    stick bytes (clamped, smoothed, then passed through a deadzone), sixteen
    buttons from two bit fields, a centred hat; plus the tolerance comparison
    that keeps analog noise from being passed on. */
module X55 {
  import opened Wrappers
  import opened DeviceStates

  /** `_deadzone`: both the axis deadzone and the comparison tolerance. */
  const Deadzone: real := 0.05
  /** `alpha` of `_smooth_axis`. */
  const Alpha: real := 0.3
  /** Reports shorter than this are skipped. */
  const MinReportLength: nat := 9
  /** Axis i is read from byte `AxisByte[i]`. */
  const AxisByte: seq<nat> := [0, 2, 4, 5, 6]
  /** The buttons come from these two bytes, eight each. */
  const ButtonBytes: seq<nat> := [6, 7]

  function Abs(x: real): real { if x < 0.0 then -x else x }

  /** `max(-1.0, min(1.0, v))`. */
  function Clamp(v: real): (r: real)
    ensures -1.0 <= r <= 1.0
    ensures -1.0 <= v <= 1.0 ==> r == v
    ensures v < -1.0 ==> r == -1.0
    ensures v > 1.0 ==> r == 1.0
  {
    if 1.0 < v then 1.0 else if v < -1.0 then -1.0 else v
  }

  /** `(b - 128) / 128.0`: a byte centred on 128 as a value in [-1, 1). */
  function RawAxis(b: Byte): (r: real)
    ensures -1.0 <= r < 1.0
    ensures b == 128 ==> r == 0.0
  {
    (b as int - 128) as real / 128.0
  }

  /** `_apply_deadzone`: values closer to 0 than `dz` read as 0; the rest is
      stretched so that `dz` maps to 0 and 1 to 1, keeping the sign. A
      deadzone of exactly 1 would divide by zero. */
  function ApplyDeadzone(v: real, dz: real): real
    requires dz != 1.0
  {
    if Abs(v) < dz then 0.0
    else if v > 0.0 then (v - dz) / (1.0 - dz)
    else (v + dz) / (1.0 - dz)
  }

  /** `_smooth_axis` as a value: the first value of an axis passes through,
      later ones are blended with the stored one. */
  function Smoothed(stored: map<int, real>, axisId: int, v: real): real {
    if axisId !in stored then v else Alpha * v + (1.0 - Alpha) * stored[axisId]
  }

  /** The axes and the smoothing memory after the first `n` axes. */
  datatype AxesPass = AxesPass(axes: map<int, real>, smoothing: map<int, real>)

  function AxesUpTo(data: seq<Byte>, smoothing: map<int, real>, n: nat): AxesPass
    requires |data| >= MinReportLength && n <= |AxisByte|
  {
    if n == 0 then AxesPass(map[], smoothing)
    else
      var p := AxesUpTo(data, smoothing, n - 1);
      var v := Smoothed(p.smoothing, n - 1, Clamp(RawAxis(data[AxisByte[n - 1]])));
      AxesPass(p.axes[n - 1 := ApplyDeadzone(v, Deadzone)], p.smoothing[n - 1 := v])
  }

  /** The first `n` buttons: button `8 * i + bit` is bit `bit` of byte
      `ButtonBytes[i]`. */
  function ButtonsUpTo(data: seq<Byte>, n: nat): map<int, bool>
    requires |data| >= MinReportLength && n <= 16
  {
    map j | 0 <= j < n :: Bit(data[ButtonBytes[j / 8]], j % 8)
  }

  lemma ButtonsUpToNext(data: seq<Byte>, i: nat, bit: nat, m: map<int, bool>, n: int, pressed: bool)
    requires |data| >= MinReportLength && i < 2 && bit < 8
    requires m == ButtonsUpTo(data, 8 * i + bit) && n == i * 8 + bit
    requires pressed == Bit(data[ButtonBytes[i]], bit)
    ensures m[n := pressed] == ButtonsUpTo(data, 8 * i + bit + 1)
  {
    assert n / 8 == i && n % 8 == bit;
  }

  /** What `_parse_x55_report` returns, and the smoothing memory after it. */
  datatype Parsed = Parsed(state: Option<DeviceState>, smoothing: map<int, real>)

  function ParseSpec(data: seq<Byte>, smoothing: map<int, real>): Parsed {
    if |data| < MinReportLength then Parsed(None, smoothing)
    else
      var a := AxesUpTo(data, smoothing, |AxisByte|);
      Parsed(Some(DeviceState("x55", a.axes, ButtonsUpTo(data, 16), map[0 := Hat(0, 0)])), a.smoothing)
  }

  /** Axes of `a1` each within `tol` of the same axis of `a2`, a missing one
      counting as 0; axes only in `a2` are not looked at. */
  predicate AxesClose(a1: map<int, real>, a2: map<int, real>, tol: real) {
    forall k :: k in a1 ==> Abs(a1[k] - Lookup(a2, k, 0.0)) <= tol
  }

  /** `_states_equal`. */
  predicate StatesEqual(s1: Option<DeviceState>, s2: Option<DeviceState>, tol: real) {
    s1.Some? && s2.Some? &&
    s1.value.buttons == s2.value.buttons && s1.value.hats == s2.value.hats &&
    AxesClose(s1.value.axes, s2.value.axes, tol)
  }

  /** What one report does in the read loop: the state passed on, if any,
      and the new `_last_state`. */
  datatype Emission = Emission(emitted: Option<DeviceState>, last: Option<DeviceState>)

  function Gate(parsed: Option<DeviceState>, last: Option<DeviceState>): Emission {
    if parsed.Some? && !StatesEqual(parsed, last, Deadzone) then Emission(parsed, parsed)
    else Emission(None, last)
  }

  class X55Reader {
    /** `_axis_smoothing`: the last smoothed value per axis. */
    var axisSmoothing: map<int, real>
    /** `_last_state`: the state passed on last. */
    var lastState: Option<DeviceState>
    /** `_deadzone`. */
    const deadzone: real := Deadzone

    constructor()
      ensures axisSmoothing == map[] && lastState == None
    {
      axisSmoothing := map[];
      lastState := None;
    }

    /** `_smooth_axis`: returns the smoothed value and stores it. */
    method SmoothAxis(axisId: int, value: real) returns (r: real)
      modifies this
      ensures r == Smoothed(old(axisSmoothing), axisId, value)
      ensures axisSmoothing == old(axisSmoothing)[axisId := r] && lastState == old(lastState)
    {
      if axisId !in axisSmoothing {
        axisSmoothing := axisSmoothing[axisId := value];
        return value;
      }
      var smoothed := Alpha * value + (1.0 - Alpha) * axisSmoothing[axisId];
      axisSmoothing := axisSmoothing[axisId := smoothed];
      return smoothed;
    }

    /** `_parse_x55_report`. */
    method ParseReport(data: seq<Byte>) returns (s: Option<DeviceState>)
      modifies this
      ensures Parsed(s, axisSmoothing) == ParseSpec(data, old(axisSmoothing))
      ensures lastState == old(lastState)
    {
      if |data| == 0 || |data| < 9 {
        return None;
      }
      var axes: map<int, real> := map[];
      var buttons: map<int, bool> := map[];
      var i := 0;
      while i < 5
        invariant 0 <= i <= 5 && lastState == old(lastState)
        invariant AxesPass(axes, axisSmoothing) == AxesUpTo(data, old(axisSmoothing), i)
      {
        var v := Clamp(RawAxis(data[AxisByte[i]]));
        v := SmoothAxis(i, v);
        axes := axes[i := ApplyDeadzone(v, deadzone)];
        i := i + 1;
      }
      buttons := ParseButtons(data);
      s := Some(DeviceState("x55", axes, buttons, map[0 := Hat(0, 0)]));
    }

    /** The button section of `_parse_x55_report`: two bytes, eight bits
        each, read through a mask. */
    method ParseButtons(data: seq<Byte>) returns (buttons: map<int, bool>)
      requires |data| >= MinReportLength
      ensures buttons == ButtonsUpTo(data, 16)
    {
      buttons := map[];
      var byteNo := 0;
      while byteNo < 2
        invariant 0 <= byteNo <= 2
        invariant buttons == ButtonsUpTo(data, 8 * byteNo)
      {
        var byteVal := data[ButtonBytes[byteNo]];
        var bit := 0;
        while bit < 8
          invariant 0 <= bit <= 8
          invariant buttons == ButtonsUpTo(data, 8 * byteNo + bit)
        {
          var buttonIdx := byteNo * 8 + bit;
          var pressed := MaskBit(byteVal, bit);
          ButtonsUpToNext(data, byteNo, bit, buttons, buttonIdx, pressed);
          buttons := buttons[buttonIdx := pressed];
          bit := bit + 1;
        }
        byteNo := byteNo + 1;
      }
    }

    /** `_states_equal`, with its early-return loop over the first state's
        axes. */
    method StatesEqualCheck(s1: Option<DeviceState>, s2: Option<DeviceState>) returns (r: bool)
      ensures r == StatesEqual(s1, s2, deadzone)
    {
      if s1.None? || s2.None? {
        return false;
      }
      if s1.value.buttons != s2.value.buttons {
        return false;
      }
      if s1.value.hats != s2.value.hats {
        return false;
      }
      var axes1, axes2 := s1.value.axes, s2.value.axes;
      var todo := axes1.Keys;
      while todo != {}
        invariant todo <= axes1.Keys
        invariant forall k :: k in axes1 && k !in todo ==> Abs(axes1[k] - Lookup(axes2, k, 0.0)) <= deadzone
        decreases todo
      {
        ghost var some := SomeMember(todo);
        var axisId :| axisId in todo;
        var val1 := axes1[axisId];
        var val2 := Lookup(axes2, axisId, 0.0);
        if Abs(val1 - val2) > deadzone {
          return false;
        }
        todo := todo - {axisId};
      }
      return true;
    }

    /** The body of the read loop once a report has arrived: parse it and
        pass it on only when it is not equal to the last one passed on. */
    method Poll(data: seq<Byte>) returns (emitted: Option<DeviceState>)
      modifies this
      ensures var p := ParseSpec(data, old(axisSmoothing));
              var g := Gate(p.state, old(lastState));
              emitted == g.emitted && lastState == g.last && axisSmoothing == p.smoothing
    {
      emitted := None;
      if |data| > 0 {
        var state := ParseReport(data);
        if state.Some? {
          var same := StatesEqualCheck(state, lastState);
          if !same {
            emitted := state;
            lastState := state;
          }
        }
      }
    }
  }

  // ---------------------------------------------------------------------
  // Properties

  /** A report shorter than nine bytes yields nothing and touches no
      smoothing memory. */
  lemma ShortReportSkipped(data: seq<Byte>, smoothing: map<int, real>)
    requires |data| < MinReportLength
    ensures ParseSpec(data, smoothing) == Parsed(None, smoothing)
  {
  }

  /** The axis section, axis by axis: axes 0 .. n-1 exist and no other;
      the smoothing memory gains those axes and keeps every other entry. */
  lemma {:induction false} AxesUpToKeys(data: seq<Byte>, smoothing: map<int, real>, n: nat)
    requires |data| >= MinReportLength && n <= |AxisByte|
    ensures forall k :: k in AxesUpTo(data, smoothing, n).axes <==> 0 <= k < n
    ensures forall k :: k in AxesUpTo(data, smoothing, n).smoothing <==> k in smoothing || 0 <= k < n
    ensures forall k :: k in smoothing && !(0 <= k < n) ==> AxesUpTo(data, smoothing, n).smoothing[k] == smoothing[k]
  {
    if n > 0 {
      AxesUpToKeys(data, smoothing, n - 1);
      var p, a := AxesUpTo(data, smoothing, n - 1), AxesUpTo(data, smoothing, n);
      assert a.axes.Keys == p.axes.Keys + {n - 1};
      assert a.smoothing.Keys == p.smoothing.Keys + {n - 1};
      assert forall k :: k in p.smoothing && k != n - 1 ==> a.smoothing[k] == p.smoothing[k];
    }
  }

  /** Axis k is smoothed from the clamped byte `AxisByte[k]` against the
      memory as it was before the report, the deadzone is applied to the
      smoothed value, and the memory keeps the smoothed value. */
  lemma AxesUpToValues(data: seq<Byte>, smoothing: map<int, real>, n: nat)
    requires |data| >= MinReportLength && n <= |AxisByte|
    ensures var a := AxesUpTo(data, smoothing, n);
            forall k :: 0 <= k < n ==>
              k in a.smoothing && k in a.axes &&
              a.smoothing[k] == Smoothed(smoothing, k, Clamp(RawAxis(data[AxisByte[k]]))) &&
              a.axes[k] == ApplyDeadzone(a.smoothing[k], Deadzone)
  {
    forall k | 0 <= k < n
      ensures var a := AxesUpTo(data, smoothing, n);
              k in a.smoothing && k in a.axes &&
              a.smoothing[k] == Smoothed(smoothing, k, Clamp(RawAxis(data[AxisByte[k]]))) &&
              a.axes[k] == ApplyDeadzone(a.smoothing[k], Deadzone)
    {
      AxisValueAt(data, smoothing, n, k);
    }
  }

  lemma {:induction false} AxisValueAt(data: seq<Byte>, smoothing: map<int, real>, n: nat, k: nat)
    requires |data| >= MinReportLength && k < n <= |AxisByte|
    ensures var a := AxesUpTo(data, smoothing, n);
            k in a.smoothing && k in a.axes &&
            a.smoothing[k] == Smoothed(smoothing, k, Clamp(RawAxis(data[AxisByte[k]]))) &&
            a.axes[k] == ApplyDeadzone(a.smoothing[k], Deadzone)
    decreases n
  {
    if k < n - 1 {
      AxisValueAt(data, smoothing, n - 1, k);
    } else {
      AxesUpToKeys(data, smoothing, k);
      var p := AxesUpTo(data, smoothing, k);
      assert (k in p.smoothing) == (k in smoothing);
      assert k in smoothing ==> p.smoothing[k] == smoothing[k];
    }
  }

  /** The parsed report: device `x55`, the hat centred, exactly sixteen
      buttons with button `8 * i + bit` being bit `bit` of byte `6 + i`, and
      exactly the five axes. */
  lemma ParseShape(data: seq<Byte>, smoothing: map<int, real>)
    requires |data| >= MinReportLength
    ensures var p := ParseSpec(data, smoothing);
            p.state.Some? && p.state.value.device == "x55" && p.state.value.hats == map[0 := Hat(0, 0)] &&
            (forall i :: i in p.state.value.buttons <==> 0 <= i < 16) &&
            (forall i :: 0 <= i < 16 ==> p.state.value.buttons[i] == Bit(data[6 + i / 8], i % 8)) &&
            (forall i :: i in p.state.value.axes <==> 0 <= i < 5)
  {
    AxesUpToKeys(data, smoothing, |AxisByte|);
    assert |AxisByte| == 5;
    var b := ButtonsUpTo(data, 16);
    forall i | 0 <= i < 16
      ensures b[i] == Bit(data[6 + i / 8], i % 8)
    {
      assert ButtonBytes[i / 8] == 6 + i / 8;
    }
  }

  lemma DivBounds(x: real, d: real)
    requires d > 0.0
    ensures 0.0 <= x ==> 0.0 <= x / d
    ensures x <= 0.0 ==> x / d <= 0.0
    ensures x <= d ==> x / d <= 1.0
    ensures -d <= x ==> -1.0 <= x / d
    ensures x != 0.0 ==> x / d != 0.0
  {
    var q := x / d;
    assert q * d == x;
  }

  lemma DivMonotone(x: real, y: real, d: real)
    requires d > 0.0 && x <= y
    ensures x / d <= y / d
  {
    DivBounds(y - x, d);
    assert y / d - x / d == (y - x) / d;
  }

  /** On [-1, 1] with a deadzone strictly between 0 and 1 the deadzone keeps
      values in [-1, 1], sends the dead band to 0 and nothing outside its
      edges to 0, keeps the sign, and keeps the end points. */
  lemma DeadzoneBounds(v: real, dz: real)
    requires -1.0 <= v <= 1.0 && 0.0 < dz < 1.0
    ensures var r := ApplyDeadzone(v, dz);
            -1.0 <= r <= 1.0 &&
            (Abs(v) < dz ==> r == 0.0) && (Abs(v) > dz ==> r != 0.0) &&
            (v > 0.0 ==> r >= 0.0) && (v < 0.0 ==> r <= 0.0) &&
            ApplyDeadzone(1.0, dz) == 1.0 && ApplyDeadzone(-1.0, dz) == -1.0
  {
    var d := 1.0 - dz;
    DivBounds(v - dz, d);
    DivBounds(v + dz, d);
    DivBounds(d, d);
    DivBounds(-d, d);
    assert (1.0 - dz) / d == 1.0;
    assert (-1.0 + dz) / d == -1.0;
  }

  /** The deadzone never reorders two values. */
  lemma DeadzoneMonotone(v1: real, v2: real, dz: real)
    requires v1 <= v2 && 0.0 <= dz < 1.0
    ensures ApplyDeadzone(v1, dz) <= ApplyDeadzone(v2, dz)
  {
    var d := 1.0 - dz;
    DivBounds(v1 - dz, d);
    DivBounds(v1 + dz, d);
    DivBounds(v2 - dz, d);
    DivBounds(v2 + dz, d);
    DivMonotone(v1 - dz, v2 - dz, d);
    DivMonotone(v1 + dz, v2 + dz, d);
  }

  /** Smoothing moves the stored value 30% of the way to the new one: the
      first value of an axis is taken as is, a steady input stays put, and
      the distance to the input shrinks to 70% per report. */
  lemma SmoothingApproaches(smoothing: map<int, real>, axisId: int, v: real)
    ensures axisId !in smoothing ==> Smoothed(smoothing, axisId, v) == v
    ensures Smoothed(smoothing[axisId := v], axisId, v) == v
    ensures axisId in smoothing ==>
              Smoothed(smoothing, axisId, v) - v == (1.0 - Alpha) * (smoothing[axisId] - v)
  {
  }

  predicate InUnitRange(m: map<int, real>) {
    forall k :: k in m ==> -1.0 <= m[k] <= 1.0
  }

  lemma SmoothedInRange(smoothing: map<int, real>, axisId: int, v: real)
    requires InUnitRange(smoothing) && -1.0 <= v <= 1.0
    ensures -1.0 <= Smoothed(smoothing, axisId, v) <= 1.0
  {
    if axisId in smoothing {
      var s := smoothing[axisId];
      assert -1.0 <= s <= 1.0;
      assert Alpha * v + (1.0 - Alpha) * s <= Alpha * 1.0 + (1.0 - Alpha) * 1.0;
      assert Alpha * v + (1.0 - Alpha) * s >= Alpha * -1.0 + (1.0 - Alpha) * -1.0;
    }
  }

  /** While the smoothing memory holds values in [-1, 1] (as it does from the
      empty start), every parsed axis and every stored value stays in
      [-1, 1]. */
  lemma {:induction false} AxesInRange(data: seq<Byte>, smoothing: map<int, real>, n: nat)
    requires |data| >= MinReportLength && n <= |AxisByte| && InUnitRange(smoothing)
    ensures InUnitRange(AxesUpTo(data, smoothing, n).axes)
    ensures InUnitRange(AxesUpTo(data, smoothing, n).smoothing)
  {
    if n > 0 {
      AxesInRange(data, smoothing, n - 1);
      var p := AxesUpTo(data, smoothing, n - 1);
      var v := Smoothed(p.smoothing, n - 1, Clamp(RawAxis(data[AxisByte[n - 1]])));
      SmoothedInRange(p.smoothing, n - 1, Clamp(RawAxis(data[AxisByte[n - 1]])));
      DeadzoneBounds(v, Deadzone);
    }
  }

  /** `_states_equal` is never true against `None`, is true of a state and
      itself, and is false when the buttons or the hats differ. */
  lemma StatesEqualFacts(s1: Option<DeviceState>, s2: Option<DeviceState>, tol: real)
    requires tol >= 0.0
    ensures s1.None? || s2.None? ==> !StatesEqual(s1, s2, tol)
    ensures s1.Some? ==> StatesEqual(s1, s1, tol)
    ensures s1.Some? && s2.Some? && (s1.value.buttons != s2.value.buttons || s1.value.hats != s2.value.hats) ==>
              !StatesEqual(s1, s2, tol)
  {
    if s1.Some? {
      assert forall k :: k in s1.value.axes ==> Lookup(s1.value.axes, k, 0.0) == s1.value.axes[k];
    }
  }

  /** The emit gate: a parsed report is passed on and becomes the last state
      exactly when it is not equal to the last state; the first parsed
      report is always passed on, and a report equal to the last one is
      not. */
  lemma GateFacts(parsed: Option<DeviceState>, last: Option<DeviceState>)
    ensures var g := Gate(parsed, last);
            (g.emitted.Some? <==> parsed.Some? && !StatesEqual(parsed, last, Deadzone)) &&
            (g.emitted.Some? ==> g.emitted == parsed && g.last == parsed) &&
            (g.emitted.None? ==> g.last == last)
    ensures parsed.Some? && last.None? ==> Gate(parsed, last).emitted == parsed
    ensures parsed.Some? && parsed == last ==> Gate(parsed, last) == Emission(None, last)
  {
    StatesEqualFacts(parsed, last, Deadzone);
  }
}
