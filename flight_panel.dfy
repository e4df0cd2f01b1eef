/** The report decoder of devices/flight_panel.py: a raw HID report of the
    Flight Switch Panel becomes a `flightpanel` snapshot with up to twenty
    switches, and a snapshot is passed on only when it differs from the one
    passed on before. */
module FlightPanel {
  import opened Wrappers
  import opened DeviceStates

  /** Switch indices at or above this are not produced. */
  const MaxSwitches: nat := 20

  function Min(a: nat, b: nat): nat { if a < b then a else b }

  /** The bytes that carry switch bits: a leading 0 is taken for a report ID
      and dropped, otherwise every byte is payload. */
  function Payload(data: seq<Byte>): (p: seq<Byte>)
    requires |data| > 0
    ensures p == data || (data[0] == 0 && p == data[1..])
  {
    if data[0] == 0 then data[1..] else data
  }

  /** How many switches a payload yields. */
  function SwitchCount(payload: seq<Byte>): nat {
    Min(MaxSwitches, 8 * |payload|)
  }

  /** The switches among the first `n` bit positions of the payload: switch
      i is bit `i % 8` of byte `i / 8`. */
  function SwitchesUpTo(payload: seq<Byte>, n: nat): map<int, bool>
    requires n <= 8 * |payload|
  {
    map i | 0 <= i < Min(MaxSwitches, n) :: Bit(payload[i / 8], i % 8)
  }

  /** One more bit position: position `8 * j + k` is bit k of byte j. */
  lemma SwitchesUpToNext(payload: seq<Byte>, j: nat, k: nat, m: map<int, bool>, n: int, on: bool)
    requires j < |payload| && k < 8 && j * 8 + k < MaxSwitches
    requires m == SwitchesUpTo(payload, 8 * j + k) && n == j * 8 + k && on == Bit(payload[j], k)
    ensures m[n := on] == SwitchesUpTo(payload, 8 * j + k + 1)
  {
    assert n / 8 == j && n % 8 == k;
  }

  /** Positions from `MaxSwitches` on add nothing. */
  lemma SwitchesUpToSkip(payload: seq<Byte>, j: nat, k: nat)
    requires j < |payload| && k < 8 && j * 8 + k >= MaxSwitches
    ensures SwitchesUpTo(payload, 8 * j + k + 1) == SwitchesUpTo(payload, 8 * j + k)
  {
  }

  /** The snapshot a report decodes to; `None` for a report shorter than
      three bytes, which is ignored. */
  function Decode(data: seq<Byte>): Option<DeviceState> {
    if |data| < 3 then None
    else
      var payload := Payload(data);
      Some(DeviceState("flightpanel", map[], SwitchesUpTo(payload, 8 * |payload|), map[]))
  }

  /** What one report does to the reader: the snapshot passed to the
      subscribers, if any, and the new `_last_state`. */
  datatype Emission = Emission(emitted: Option<DeviceState>, last: Option<DeviceState>)

  function EmitStep(last: Option<DeviceState>, data: seq<Byte>): Emission {
    match Decode(data)
    case None => Emission(None, last)
    case Some(s) => if Some(s) != last then Emission(Some(s), Some(s)) else Emission(None, last)
  }

  class FlightPanelReader {
    /** `_last_state`: the snapshot passed on last, `None` before the first. */
    var lastState: Option<DeviceState>

    constructor()
      ensures lastState == None
    {
      lastState := None;
    }

    /** `_parse_and_emit`: decode the report bit by bit and pass the snapshot
        on when it changed; the returned value is what the subscribers get. */
    method ParseAndEmit(data: seq<Byte>) returns (emitted: Option<DeviceState>)
      modifies this
      ensures Emission(emitted, lastState) == EmitStep(old(lastState), data)
    {
      if |data| == 0 || |data| < 3 {
        return None;
      }
      var payload := if data[0] == 0 then data[1..] else data;
      var buttons: map<int, bool> := map[];
      var byteIdx := 0;
      while byteIdx < |payload|
        invariant 0 <= byteIdx <= |payload|
        invariant buttons == SwitchesUpTo(payload, 8 * byteIdx)
        invariant lastState == old(lastState)
      {
        var byteVal := payload[byteIdx];
        var bitIdx := 0;
        while bitIdx < 8
          invariant 0 <= bitIdx <= 8
          invariant buttons == SwitchesUpTo(payload, 8 * byteIdx + bitIdx)
          invariant lastState == old(lastState)
        {
          if byteIdx * 8 + bitIdx < 20 {
            var switchIdx := byteIdx * 8 + bitIdx;
            var on := Bit(byteVal, bitIdx);
            SwitchesUpToNext(payload, byteIdx, bitIdx, buttons, switchIdx, on);
            buttons := buttons[switchIdx := on];
          } else {
            SwitchesUpToSkip(payload, byteIdx, bitIdx);
          }
          bitIdx := bitIdx + 1;
        }
        byteIdx := byteIdx + 1;
      }
      assert payload == Payload(data);
      var state := DeviceState("flightpanel", map[], buttons, map[]);
      assert Decode(data) == Some(state);
      if Some(state) != lastState {
        lastState := Some(state);
        emitted := Some(state);
      } else {
        emitted := None;
      }
    }
  }

  /** A report shorter than three bytes emits nothing and leaves the last
      state as it was. */
  lemma ShortReportIgnored(last: Option<DeviceState>, data: seq<Byte>)
    requires |data| < 3
    ensures EmitStep(last, data) == Emission(None, last)
  {
  }

  /** The decoded snapshot: device `flightpanel`, no axes, no hats, switches
      exactly 0 .. min(20, 8 * payload length) - 1, switch i being bit
      `i % 8` of payload byte `i / 8`, where the payload drops a leading 0. */
  lemma DecodeShape(data: seq<Byte>)
    requires |data| >= 3
    ensures Decode(data).Some?
    ensures var s := Decode(data).value;
            var payload := if data[0] == 0 then data[1..] else data;
            s.device == "flightpanel" && s.axes == map[] && s.hats == map[] &&
            (forall i :: i in s.buttons <==> 0 <= i < SwitchCount(payload)) &&
            (forall i :: 0 <= i < SwitchCount(payload) ==> s.buttons[i] == Bit(payload[i / 8], i % 8))
  {
  }

  /** A report of at least three bytes always has a payload of two or more
      bytes, so at least sixteen switches; three payload bytes give all
      twenty. */
  lemma SwitchCountBounds(data: seq<Byte>)
    requires |data| >= 3
    ensures 16 <= SwitchCount(Payload(data)) <= MaxSwitches
    ensures |Payload(data)| >= 3 ==> SwitchCount(Payload(data)) == MaxSwitches
  {
  }

  /** Emission is change-gated: something is passed on exactly when the
      decoded snapshot differs from the last one, and it then becomes the
      last one. */
  lemma EmitOnlyOnChange(last: Option<DeviceState>, data: seq<Byte>)
    ensures var e := EmitStep(last, data);
            (e.emitted.Some? <==> Decode(data).Some? && Decode(data) != last) &&
            (e.emitted.Some? ==> e.last == e.emitted && e.emitted == Decode(data)) &&
            (e.emitted.None? ==> e.last == last)
  {
  }

  /** Feeding the same report twice passes it on at most once. */
  lemma SameReportTwice(last: Option<DeviceState>, data: seq<Byte>)
    ensures var e1 := EmitStep(last, data);
            var e2 := EmitStep(e1.last, data);
            e2.emitted == None && e2.last == e1.last
  {
  }

  // ---------------------------------------------------------------------
  // A reference encoder: the report a panel sends for twenty switches

  /** The byte whose bit k is `bits[k]`. */
  function PackByte(bits: seq<bool>): (b: Byte)
    requires |bits| == 8
    ensures forall k :: 0 <= k < 8 ==> (Bit(b, k) <==> bits[k])
  {
    var b: Byte :=
      (if bits[0] then 1 else 0) | (if bits[1] then 2 else 0) |
      (if bits[2] then 4 else 0) | (if bits[3] then 8 else 0) |
      (if bits[4] then 16 else 0) | (if bits[5] then 32 else 0) |
      (if bits[6] then 64 else 0) | (if bits[7] then 128 else 0);
    b
  }

  /** Switch `i` as a panel reports it, off when not given. */
  function SwitchAt(sw: map<int, bool>, i: int): bool {
    i in sw && sw[i]
  }

  /** Byte j of the switch bits: switches 8j .. 8j+7. */
  function EncodeByte(sw: map<int, bool>, j: nat): (b: Byte)
    ensures forall k :: 0 <= k < 8 ==> (Bit(b, k) <==> SwitchAt(sw, 8 * j + k))
  {
    PackByte(seq(8, k requires 0 <= k < 8 => SwitchAt(sw, 8 * j + k)))
  }

  /** A report with report ID 0 followed by three bytes of switch bits. */
  function Encode(sw: map<int, bool>): (data: seq<Byte>)
    ensures |data| == 4 && data[0] == 0
  {
    [0, EncodeByte(sw, 0), EncodeByte(sw, 1), EncodeByte(sw, 2)]
  }

  lemma EncodedSwitch(sw: map<int, bool>, j: nat, k: nat)
    requires j < 3 && k < 8
    ensures Bit(Encode(sw)[1..][j], k) == SwitchAt(sw, 8 * j + k)
  {
    assert Encode(sw)[1..][j] == EncodeByte(sw, j);
  }

  lemma SwitchesFromBits(payload: seq<Byte>, sw: map<int, bool>)
    requires |payload| == 3
    requires forall i :: i in sw <==> 0 <= i < MaxSwitches
    requires forall i :: 0 <= i < MaxSwitches ==> Bit(payload[i / 8], i % 8) == SwitchAt(sw, i)
    ensures SwitchesUpTo(payload, 24) == sw
  {
    var m := SwitchesUpTo(payload, 24);
    assert Min(MaxSwitches, 24) == MaxSwitches;
    assert forall i :: i in m <==> i in sw;
    assert forall i :: i in m ==> m[i] == sw[i];
  }

  /** Bits given byte by byte, read back by switch index. */
  lemma BitsByIndex(payload: seq<Byte>, sw: map<int, bool>)
    requires |payload| == 3
    requires forall j, k :: 0 <= j < 3 && 0 <= k < 8 ==> Bit(payload[j], k) == SwitchAt(sw, 8 * j + k)
    ensures forall i :: 0 <= i < MaxSwitches ==> Bit(payload[i / 8], i % 8) == SwitchAt(sw, i)
  {
    forall i | 0 <= i < MaxSwitches
      ensures Bit(payload[i / 8], i % 8) == SwitchAt(sw, i)
    {
      var j, k := i / 8, i % 8;
      assert 8 * j + k == i && j < 3 && k < 8;
      assert Bit(payload[j], k) == SwitchAt(sw, 8 * j + k);
    }
  }

  lemma EncodedSwitches(sw: map<int, bool>)
    requires forall i :: i in sw <==> 0 <= i < MaxSwitches
    ensures SwitchesUpTo(Encode(sw)[1..], 24) == sw
  {
    var payload := Encode(sw)[1..];
    forall j, k | 0 <= j < 3 && 0 <= k < 8
      ensures Bit(payload[j], k) == SwitchAt(sw, 8 * j + k)
    {
      EncodedSwitch(sw, j, k);
    }
    BitsByIndex(payload, sw);
    SwitchesFromBits(payload, sw);
  }

  lemma DecodeWithReportId(data: seq<Byte>)
    requires |data| == 4 && data[0] == 0
    ensures Decode(data) == Some(DeviceState("flightpanel", map[], SwitchesUpTo(data[1..], 24), map[]))
  {
  }

  /** Decoding an encoded report gives back the twenty switches. */
  lemma DecodeEncode(sw: map<int, bool>)
    requires forall i :: i in sw <==> 0 <= i < MaxSwitches
    ensures Decode(Encode(sw)) == Some(DeviceState("flightpanel", map[], sw, map[]))
  {
    DecodeWithReportId(Encode(sw));
    EncodedSwitches(sw);
  }
}
