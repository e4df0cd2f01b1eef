/** The vJoy side of vjoy/output.py: how a `VJoyCommand` is encoded into the
    fields of the joystick position record, and the four-slot queue that
    keeps only the latest commands. */
module VJoy {
  import opened Wrappers
  import opened DeviceStates

  /** `AXIS_MAP`: command axis name to position field. */
  const AxisMap: map<string, string> := map[
    "AXIS_X" := "wAxisX",
    "AXIS_Y" := "wAxisY",
    "AXIS_Z" := "wAxisZ",
    "AXIS_RX" := "wAxisXRot",
    "AXIS_RY" := "wAxisYRot",
    "AXIS_RZ" := "wAxisZRot",
    "AXIS_RUDDER" := "wRudder",
    "AXIS_THROTTLE" := "wThrottle",
    "AXIS_AILERON" := "wAileron",
    "AXIS_SLIDER" := "wSlider",
    "AXIS_DIAL" := "wDial",
    "AXIS_WHEEL" := "wWheel"]

  /** The largest axis value vJoy takes. */
  const AxisMax: int := 0x8000
  /** `bHats` for a centred POV. */
  const PovCentred: int := 0xFFFF
  /** `Queue(maxsize=4)`. */
  const QueueCapacity: nat := 4

  /** Python's `int()` on a float: truncation toward zero. */
  function Truncate(x: real): int {
    if x >= 0.0 then x.Floor else -((-x).Floor)
  }

  /** `_to_vjoy_axis`: -1..1 onto 0..0x8000, truncated, then clamped. */
  function ToVJoyAxis(v: real): (iv: int)
    ensures 0 <= iv <= AxisMax
  {
    var t := Truncate((v + 1.0) / 2.0 * 0x8000 as real);
    if t < 0 then 0 else if t > AxisMax then AxisMax else t
  }

  /** `bHats` for a POV in degrees: 0xFFFF for -1, otherwise hundredths of
      the degree reduced into [0, 360). */
  function HatsValue(deg: int): int {
    if deg == -1 then PovCentred else (deg % 360) * 100
  }

  /** Button id `k + 1` is bit k of `lButtons`; a 32-bit field keeps ids
      1 .. 32 only. */
  predicate ButtonBit(w: bv32, k: nat)
    requires k < 32
  {
    (w >> (k as bv5)) & 1 == 1
  }

  /** `lButtons` holds exactly the pressed ids among 1 .. 32. */
  predicate EncodesButtons(w: bv32, buttons: map<int, bool>) {
    forall k: nat :: k < 32 ==> (ButtonBit(w, k) <==> (k + 1 in buttons && buttons[k + 1]))
  }

  /** A pressed id below 1 makes `1 << (id - 1)` raise. */
  predicate HasBadButton(buttons: map<int, bool>) {
    exists id :: id in buttons && buttons[id] && id < 1
  }

  /** `buttons_value |= 1 << (bid - 1)` on a 32-bit field: ids above 32 set a
      bit the field does not have. */
  function OrButton(w: bv32, bid: int): bv32
    requires bid >= 1
  {
    if bid <= 32 then w | (1 << ((bid - 1) as bv5)) else w
  }

  /** The axis fields after writing a command's axes: each name in
      `AxisMap` sets its field, other names are skipped. Fields are keyed by
      the axis name that writes them (`AxisMap` is one-to-one). */
  function WriteAxes(fields: map<string, int>, axes: map<string, real>): map<string, int> {
    WriteKnown(fields, axes, AxisMap.Keys)
  }

  function WriteKnown(fields: map<string, int>, axes: map<string, real>, known: set<string>): map<string, int> {
    fields + KnownValues(axes, known)
  }

  /** The queue after `apply`: appended, the oldest dropped first when full. */
  function Enqueue(q: seq<VJoyCommand>, cmd: VJoyCommand): seq<VJoyCommand> {
    if |q| < QueueCapacity then q + [cmd] else q[1..] + [cmd]
  }

  class VJoyOutput {
    /** `_acquired`: whether `AcquireVJD` succeeded. */
    var acquired: bool
    /** The axis fields of `_pos`, each under the `AxisMap` name that
        writes it. */
    var axisFields: map<string, int>
    /** `_pos.lButtons`. */
    var lButtons: bv32
    /** `_pos.bHats`. */
    var bHats: int
    /** `_q`, oldest first. */
    var queue: seq<VJoyCommand>

    /** The position record starts zeroed; whether the device was acquired
        is the answer of the driver, given here. */
    constructor(acquiredByDriver: bool)
      ensures acquired == acquiredByDriver && queue == []
      ensures axisFields == map name | name in AxisMap :: 0
      ensures lButtons == 0 && bHats == 0
    {
      acquired := acquiredByDriver;
      axisFields := map name | name in AxisMap :: 0;
      lButtons := 0;
      bHats := 0;
      queue := [];
    }

    /** `apply`: `put_nowait`; when full, `get_nowait` then `put_nowait`. */
    method Apply(cmd: VJoyCommand)
      modifies this
      ensures queue == Enqueue(old(queue), cmd)
      ensures acquired == old(acquired) && axisFields == old(axisFields)
      ensures lButtons == old(lButtons) && bHats == old(bHats)
    {
      if |queue| < QueueCapacity {
        queue := queue + [cmd];
      } else {
        if |queue| > 0 {
          queue := queue[1..];
        }
        queue := queue + [cmd];
      }
    }

    /** The axis loop of `_apply_to_device`. */
    method SetAxes(axes: map<string, real>)
      modifies this
      ensures axisFields == WriteAxes(old(axisFields), axes)
      ensures acquired == old(acquired) && lButtons == old(lButtons)
      ensures bHats == old(bHats) && queue == old(queue)
    {
      var todo := axes.Keys;
      ghost var fields0 := axisFields;
      ghost var done: map<string, real> := map[];
      WriteAxesNone(fields0);
      while todo != {}
        invariant todo <= axes.Keys
        invariant done.Keys == axes.Keys - todo
        invariant forall n :: n in done ==> done[n] == axes[n]
        invariant axisFields == WriteAxes(fields0, done)
        invariant acquired == old(acquired) && lButtons == old(lButtons)
        invariant bHats == old(bHats) && queue == old(queue)
        decreases todo
      {
        ghost var some := SomeMember(todo);
        var name :| name in todo;
        if name in AxisMap {
          var iv := ToVJoyAxis(axes[name]);
          axisFields := axisFields[name := iv];
        }
        WriteAxesAdd(fields0, done, name, axes[name]);
        done := done[name := axes[name]];
        todo := todo - {name};
      }
      assert done == axes by {
        assert done.Keys == axes.Keys;
      }
    }

    /** The button loop: the OR of `1 << (id - 1)` over the pressed ids, or
        `None` when a pressed id below 1 makes the shift raise. */
    method ButtonWord(buttons: map<int, bool>) returns (r: Option<bv32>)
      ensures r.None? <==> HasBadButton(buttons)
      ensures r.Some? ==> EncodesButtons(r.value, buttons)
    {
      var value: bv32 := 0;
      var todo := buttons.Keys;
      while todo != {}
        invariant todo <= buttons.Keys
        invariant forall id :: id in buttons && id !in todo && buttons[id] ==> id >= 1
        invariant forall k: nat :: k < 32 ==>
                    (ButtonBit(value, k) <==> (k + 1 in buttons && k + 1 !in todo && buttons[k + 1]))
        decreases todo
      {
        ghost var some := SomeMember(todo);
        var bid :| bid in todo;
        if buttons[bid] {
          if bid < 1 {
            return None;
          }
          OrButtonBits(value, bid);
          value := OrButton(value, bid);
        }
        todo := todo - {bid};
      }
      return Some(value);
    }

    /** `_apply_to_device`: nothing when not acquired; otherwise the axes,
        then the buttons, then POV 0. A pressed id below 1 raises inside the
        button loop: the axes already written stay, the rest is skipped and
        `UpdateVJD` is not called. `sent` tells whether it was called. */
    method ApplyToDevice(cmd: VJoyCommand) returns (sent: bool)
      modifies this
      ensures !old(acquired) ==> !sent && axisFields == old(axisFields) &&
                                 lButtons == old(lButtons) && bHats == old(bHats)
      ensures old(acquired) ==> axisFields == WriteAxes(old(axisFields), cmd.axes)
      ensures old(acquired) && HasBadButton(cmd.buttons) ==>
                !sent && lButtons == old(lButtons) && bHats == old(bHats)
      ensures old(acquired) && !HasBadButton(cmd.buttons) ==>
                sent && EncodesButtons(lButtons, cmd.buttons) &&
                bHats == (if 0 in cmd.povs then HatsValue(cmd.povs[0]) else old(bHats))
      ensures acquired == old(acquired) && queue == old(queue)
    {
      if !acquired {
        return false;
      }
      SetAxes(cmd.axes);
      var word := ButtonWord(cmd.buttons);
      if word.None? {
        return false;
      }
      lButtons := word.value;
      if |cmd.povs| > 0 {
        SetPovs(cmd.povs);
      }
      return true;
    }

    /** The POV loop of `_apply_to_device`: visits every id and writes
        `bHats` for id 0 only, 0xFFFF for -1 and otherwise the degrees
        reduced modulo 360, in hundredths. */
    method SetPovs(povs: map<int, int>)
      modifies this
      ensures bHats == (if 0 in povs then HatsValue(povs[0]) else old(bHats))
      ensures acquired == old(acquired) && queue == old(queue)
      ensures axisFields == old(axisFields) && lButtons == old(lButtons)
    {
      var todo := povs.Keys;
      while todo != {}
        invariant todo <= povs.Keys
        invariant bHats == (if 0 in povs && 0 !in todo then HatsValue(povs[0]) else old(bHats))
        invariant acquired == old(acquired) && queue == old(queue)
        invariant axisFields == old(axisFields) && lButtons == old(lButtons)
        decreases todo
      {
        ghost var some := SomeMember(todo);
        var pid :| pid in todo;
        if pid == 0 {
          var deg := povs[pid];
          if deg == -1 {
            bHats := 0xFFFF;
          } else {
            var degNormalized := deg % 360;
            bHats := degNormalized * 100;
          }
        }
        todo := todo - {pid};
      }
    }
  }

  lemma WriteKnownAdd(fields: map<string, int>, done: map<string, real>, known: set<string>, name: string, v: real)
    ensures WriteKnown(fields, done[name := v], known) ==
            if name in known then WriteKnown(fields, done, known)[name := ToVJoyAxis(v)]
            else WriteKnown(fields, done, known)
  {
    var before := KnownValues(done, known);
    var after := KnownValues(done[name := v], known);
    if name in known {
      assert after == before[name := ToVJoyAxis(v)];
      assert fields + after == (fields + before)[name := ToVJoyAxis(v)];
    } else {
      assert after == before;
    }
  }

  /** The converted values of the names in `known`. */
  function KnownValues(axes: map<string, real>, known: set<string>): map<string, int> {
    map name | name in axes && name in known :: ToVJoyAxis(axes[name])
  }

  lemma WriteAxesNone(fields: map<string, int>)
    ensures WriteAxes(fields, map[]) == fields
  {
    var none: map<string, real> := map[];
    assert (map name | name in none && name in AxisMap :: ToVJoyAxis(none[name])) == map[];
  }

  lemma WriteAxesAdd(fields: map<string, int>, done: map<string, real>, name: string, v: real)
    ensures WriteAxes(fields, done[name := v]) ==
            if name in AxisMap then WriteAxes(fields, done)[name := ToVJoyAxis(v)]
            else WriteAxes(fields, done)
  {
    WriteKnownAdd(fields, done, AxisMap.Keys, name, v);
  }

  /** The axis write touches exactly the named axes that `AxisMap` knows:
      each gets its converted value, every other field keeps its value, and
      the record keeps its set of fields. */
  lemma WriteAxesFacts(fields: map<string, int>, axes: map<string, real>, name: string)
    requires fields.Keys == AxisMap.Keys
    ensures var r := WriteAxes(fields, axes);
            r.Keys == AxisMap.Keys &&
            (name in axes && name in AxisMap ==> r[name] == ToVJoyAxis(axes[name])) &&
            (name in fields && name !in axes ==> r[name] == fields[name])
  {
  }

  /** No two command axis names write the same field, so keying the fields
      by axis name loses nothing. */
  lemma AxisMapInjective()
    ensures forall a, b :: a in AxisMap && b in AxisMap && a != b ==> AxisMap[a] != AxisMap[b]
  {
  }

  lemma OrButtonBits(w: bv32, bid: int)
    requires bid >= 1
    ensures forall k: nat :: k < 32 ==> (ButtonBit(OrButton(w, bid), k) <==> ButtonBit(w, k) || k + 1 == bid)
  {
    forall k: nat | k < 32
      ensures ButtonBit(OrButton(w, bid), k) <==> ButtonBit(w, k) || k + 1 == bid
    {
      OrButtonBitAt(w, bid, k);
    }
  }

  lemma OrButtonBitAt(w: bv32, bid: int, k: nat)
    requires bid >= 1 && k < 32
    ensures ButtonBit(OrButton(w, bid), k) <==> ButtonBit(w, k) || k + 1 == bid
  {
    if bid <= 32 {
      var j: nat := bid - 1;
      OrShift(w, 1 << (j as bv5), k as bv5);
      OneBit(j, k);
    }
  }

  lemma OrShift(w: bv32, m: bv32, s: bv5)
    ensures ((w | m) >> s) & 1 == 1 <==> (w >> s) & 1 == 1 || (m >> s) & 1 == 1
  {
  }

  lemma OneBit(j: nat, k: nat)
    requires j < 32 && k < 32
    ensures ButtonBit(1 << (j as bv5), k) <==> k == j
  {
    SmallToBv(j);
    SmallToBv(k);
    OneShift(j as bv5, k as bv5);
  }

  lemma OneShift(i: bv5, s: bv5)
    ensures (((1 as bv32) << i) >> s) & 1 == 1 <==> i == s
  {
  }

  /** A bit index below 32 survives the conversion to a 5-bit shift amount. */
  lemma SmallToBv(j: nat)
    requires j < 32
    ensures (j as bv5) as int == j
  {
  }

  // ---------------------------------------------------------------------
  // Properties

  lemma TruncateMonotone(x: real, y: real)
    requires x <= y
    ensures Truncate(x) <= Truncate(y)
  {
    if 0.0 <= x {
      assert x.Floor <= y.Floor;
    } else if y < 0.0 {
      assert (-y).Floor <= (-x).Floor;
    } else {
      assert 0 <= y.Floor;
      assert 0 <= (-x).Floor;
    }
  }

  /** `_to_vjoy_axis` maps -1 to 0, 0 to the centre 0x4000 and 1 to 0x8000,
      saturates outside [-1, 1], and never reorders two inputs. */
  lemma ToVJoyAxisFacts(v1: real, v2: real)
    requires v1 <= v2
    ensures ToVJoyAxis(v1) <= ToVJoyAxis(v2)
    ensures ToVJoyAxis(-1.0) == 0 && ToVJoyAxis(0.0) == 0x4000 && ToVJoyAxis(1.0) == AxisMax
    ensures v1 <= -1.0 ==> ToVJoyAxis(v1) == 0
    ensures v2 >= 1.0 ==> ToVJoyAxis(v2) == AxisMax
  {
    var x1, x2 := (v1 + 1.0) / 2.0 * 0x8000 as real, (v2 + 1.0) / 2.0 * 0x8000 as real;
    assert x1 <= x2;
    TruncateMonotone(x1, x2);
    assert (0.0 + 1.0) / 2.0 * 0x8000 as real == 16384.0;
    assert (1.0 + 1.0) / 2.0 * 0x8000 as real == 32768.0;
    if v1 <= -1.0 {
      assert x1 <= 0.0;
      TruncateMonotone(x1, 0.0);
    }
    if v2 >= 1.0 {
      assert x2 >= 32768.0;
      TruncateMonotone(32768.0, x2);
    }
  }

  /** The POV value read back in degrees: `None`-like -1 for centred. */
  function DegreesOf(hats: int): int {
    if hats == PovCentred then -1 else hats / 100
  }

  /** `bHats` is 0xFFFF exactly for a centred POV; any other degree becomes
      a multiple of 100 in [0, 35900], which reads back as the degree
      reduced into [0, 360). */
  lemma HatsValueFacts(deg: int)
    ensures (HatsValue(deg) == PovCentred) <==> deg == -1
    ensures deg != -1 ==> 0 <= HatsValue(deg) <= 35900 && HatsValue(deg) % 100 == 0
    ensures DegreesOf(HatsValue(deg)) == if deg == -1 then -1 else deg % 360
  {
    if deg != -1 {
      var r := deg % 360;
      assert 0 <= r < 360;
      assert HatsValue(deg) == r * 100;
      assert (r * 100) / 100 == r;
    }
  }

  /** The button word is determined by the command: two words that both
      encode the same buttons are equal. */
  lemma EncodingUnique(w1: bv32, w2: bv32, buttons: map<int, bool>)
    requires EncodesButtons(w1, buttons) && EncodesButtons(w2, buttons)
    ensures w1 == w2
  {
    assert forall k: nat :: k < 32 ==> ButtonBit(w1, k) == ButtonBit(w2, k);
    SameBitsSameWord(w1, w2);
  }

  /** A 32-bit word is determined by its bits, taken a byte at a time. */
  lemma SameBitsSameWord(w1: bv32, w2: bv32)
    requires forall k: nat :: k < 32 ==> ButtonBit(w1, k) == ButtonBit(w2, k)
    ensures w1 == w2
  {
    SameByte0(w1, w2);
    SameByte1(w1, w2);
    SameByte2(w1, w2);
    SameByte3(w1, w2);
    SameBytesSameWord(w1, w2);
  }

  lemma SameBytesSameWord(w1: bv32, w2: bv32)
    requires w1 & 0xFF == w2 & 0xFF && w1 & 0xFF00 == w2 & 0xFF00
    requires w1 & 0xFF0000 == w2 & 0xFF0000 && w1 & 0xFF000000 == w2 & 0xFF000000
    ensures w1 == w2
  {
  }

  lemma SameByte0(w1: bv32, w2: bv32)
    requires ButtonBit(w1, 0) == ButtonBit(w2, 0) && ButtonBit(w1, 1) == ButtonBit(w2, 1) && ButtonBit(w1, 2) == ButtonBit(w2, 2) && ButtonBit(w1, 3) == ButtonBit(w2, 3)
    requires ButtonBit(w1, 4) == ButtonBit(w2, 4) && ButtonBit(w1, 5) == ButtonBit(w2, 5) && ButtonBit(w1, 6) == ButtonBit(w2, 6) && ButtonBit(w1, 7) == ButtonBit(w2, 7)
    ensures w1 & 0xFF == w2 & 0xFF
  {
  }

  lemma SameByte1(w1: bv32, w2: bv32)
    requires ButtonBit(w1, 8) == ButtonBit(w2, 8) && ButtonBit(w1, 9) == ButtonBit(w2, 9) && ButtonBit(w1, 10) == ButtonBit(w2, 10) && ButtonBit(w1, 11) == ButtonBit(w2, 11)
    requires ButtonBit(w1, 12) == ButtonBit(w2, 12) && ButtonBit(w1, 13) == ButtonBit(w2, 13) && ButtonBit(w1, 14) == ButtonBit(w2, 14) && ButtonBit(w1, 15) == ButtonBit(w2, 15)
    ensures w1 & 0xFF00 == w2 & 0xFF00
  {
  }

  lemma SameByte2(w1: bv32, w2: bv32)
    requires ButtonBit(w1, 16) == ButtonBit(w2, 16) && ButtonBit(w1, 17) == ButtonBit(w2, 17) && ButtonBit(w1, 18) == ButtonBit(w2, 18) && ButtonBit(w1, 19) == ButtonBit(w2, 19)
    requires ButtonBit(w1, 20) == ButtonBit(w2, 20) && ButtonBit(w1, 21) == ButtonBit(w2, 21) && ButtonBit(w1, 22) == ButtonBit(w2, 22) && ButtonBit(w1, 23) == ButtonBit(w2, 23)
    ensures w1 & 0xFF0000 == w2 & 0xFF0000
  {
  }

  lemma SameByte3(w1: bv32, w2: bv32)
    requires ButtonBit(w1, 24) == ButtonBit(w2, 24) && ButtonBit(w1, 25) == ButtonBit(w2, 25) && ButtonBit(w1, 26) == ButtonBit(w2, 26) && ButtonBit(w1, 27) == ButtonBit(w2, 27)
    requires ButtonBit(w1, 28) == ButtonBit(w2, 28) && ButtonBit(w1, 29) == ButtonBit(w2, 29) && ButtonBit(w1, 30) == ButtonBit(w2, 30) && ButtonBit(w1, 31) == ButtonBit(w2, 31)
    ensures w1 & 0xFF000000 == w2 & 0xFF000000
  {
  }

  /** A run of `apply` calls. */
  function EnqueueAll(q: seq<VJoyCommand>, cmds: seq<VJoyCommand>): seq<VJoyCommand>
    decreases |cmds|
  {
    if |cmds| == 0 then q else EnqueueAll(Enqueue(q, cmds[0]), cmds[1..])
  }

  /** One `apply`: the new command is last, the length stays within the
      capacity, and exactly the oldest command is dropped when the queue was
      full, none otherwise. */
  lemma EnqueueFacts(q: seq<VJoyCommand>, cmd: VJoyCommand)
    requires |q| <= QueueCapacity
    ensures var r := Enqueue(q, cmd);
            |r| <= QueueCapacity && r[|r| - 1] == cmd &&
            (|q| == QueueCapacity ==> r == q[1..] + [cmd]) &&
            (|q| < QueueCapacity ==> r[..|q|] == q && |r| == |q| + 1)
  {
  }

  /** Whatever was queued, after any run of `apply` calls the queue holds
      exactly the latest commands, as many as fit. */
  lemma {:induction false} QueueKeepsLatest(q: seq<VJoyCommand>, cmds: seq<VJoyCommand>)
    requires |q| <= QueueCapacity
    ensures var all := q + cmds;
            var n := if |all| < QueueCapacity then |all| else QueueCapacity;
            EnqueueAll(q, cmds) == all[|all| - n..]
    decreases |cmds|
  {
    if |cmds| > 0 {
      var c, rest := cmds[0], cmds[1..];
      assert cmds == [c] + rest;
      QueueKeepsLatest(Enqueue(q, c), rest);
      EnqueueThenRest(q, c, rest);
      if |q| == QueueCapacity {
        DropFirstTail(q + cmds, QueueCapacity);
      }
    }
  }

  lemma EnqueueThenRest(q: seq<VJoyCommand>, c: VJoyCommand, rest: seq<VJoyCommand>)
    requires |q| <= QueueCapacity
    ensures |q| < QueueCapacity ==> Enqueue(q, c) + rest == q + ([c] + rest)
    ensures |q| == QueueCapacity ==> Enqueue(q, c) + rest == (q + ([c] + rest))[1..]
  {
  }

  lemma DropFirstTail<T>(s: seq<T>, n: nat)
    requires n < |s|
    ensures s[1..][|s| - 1 - n..] == s[|s| - n..]
  {
  }
}
