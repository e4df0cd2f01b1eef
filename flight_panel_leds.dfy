/** The LED control of devices/flight_panel_leds.py: read-modify-write of
    bit 0 of byte 1 (the N position light) and bit 0 of byte 2 (the L
    position light) of the panel's feature report. */
module FlightPanelLeds {
  import opened DeviceStates

  /** Byte and mask of the N light. */
  const NByte: nat := 1
  const NLightBit: Byte := 0x01
  /** Byte and mask of the L light. */
  const LByte: nat := 2
  const LLightBit: Byte := 0x01

  /** `report[i] |= 0x01` when `on`, `report[i] &= ~0x01` otherwise. */
  function WithBit0(report: seq<Byte>, i: nat, on: bool): (r: seq<Byte>)
    requires i < |report|
  {
    report[i := if on then report[i] | 0x01 else report[i] & 0xFE]
  }

  class FlightPanelLEDControl {
    /** Whether `_device` is open. */
    var deviceOpen: bool
    /** `_last_report`: the feature report last sent. */
    var lastReport: seq<Byte>

    /** The state `connect` leaves: the device open (or not) and the
        feature report read from it. */
    constructor(isOpen: bool, initialReport: seq<Byte>)
      ensures deviceOpen == isOpen && lastReport == initialReport
    {
      deviceOpen := isOpen;
      lastReport := initialReport;
    }

    /** `set_n_light` and `set_l_light`: copy the report, edit bit 0 of byte
        `i`, send it, and keep it only once it was sent. A report too short
        for byte `i` raises `IndexError`, caught like a failed send;
        `sendFails` is the device's answer to `send_feature_report`. */
    method SetLight(i: nat, on: bool, sendFails: bool) returns (ok: bool)
      modifies this
      ensures deviceOpen == old(deviceOpen)
      ensures ok <==> old(deviceOpen) && i < |old(lastReport)| && !sendFails
      ensures ok ==> lastReport == WithBit0(old(lastReport), i, on)
      ensures !ok ==> lastReport == old(lastReport)
    {
      if !deviceOpen {
        return false;
      }
      var report := lastReport;
      if i >= |report| {
        return false;
      }
      if on {
        report := report[i := report[i] | 0x01];
      } else {
        report := report[i := report[i] & !0x01];
      }
      if sendFails {
        return false;
      }
      lastReport := report;
      return true;
    }

    /** `set_n_light`. */
    method SetNLight(on: bool, sendFails: bool) returns (ok: bool)
      modifies this
      ensures deviceOpen == old(deviceOpen)
      ensures ok <==> old(deviceOpen) && NByte < |old(lastReport)| && !sendFails
      ensures ok ==> lastReport == WithBit0(old(lastReport), NByte, on)
      ensures !ok ==> lastReport == old(lastReport)
    {
      ok := SetLight(NByte, on, sendFails);
    }

    /** `set_l_light`. */
    method SetLLight(on: bool, sendFails: bool) returns (ok: bool)
      modifies this
      ensures deviceOpen == old(deviceOpen)
      ensures ok <==> old(deviceOpen) && LByte < |old(lastReport)| && !sendFails
      ensures ok ==> lastReport == WithBit0(old(lastReport), LByte, on)
      ensures !ok ==> lastReport == old(lastReport)
    {
      ok := SetLight(LByte, on, sendFails);
    }

    /** `set_landing_gear`: both lights follow the gear; the two results are
        ignored. */
    method SetLandingGear(down: bool, nSendFails: bool, lSendFails: bool)
      modifies this
      ensures deviceOpen == old(deviceOpen)
      ensures var okN := old(deviceOpen) && NByte < |old(lastReport)| && !nSendFails;
              var afterN := if okN then WithBit0(old(lastReport), NByte, down) else old(lastReport);
              var okL := old(deviceOpen) && LByte < |afterN| && !lSendFails;
              lastReport == if okL then WithBit0(afterN, LByte, down) else afterN
      ensures old(deviceOpen) && |old(lastReport)| > LByte && !nSendFails && !lSendFails ==>
                lastReport == WithBit0(WithBit0(old(lastReport), NByte, down), LByte, down) &&
                Bit(lastReport[NByte], 0) == down && Bit(lastReport[LByte], 0) == down
      ensures !old(deviceOpen) ==> lastReport == old(lastReport)
    {
      var okN := SetNLight(down, nSendFails);
      var okL := SetLLight(down, lSendFails);
      if old(deviceOpen) && |old(lastReport)| > LByte && !nSendFails && !lSendFails {
        WithBit0Facts(old(lastReport), NByte, down);
        WithBit0Facts(WithBit0(old(lastReport), NByte, down), LByte, down);
      }
    }
  }

  /** The edit makes bit 0 of byte i equal to `on` and changes nothing else:
      the length, every other byte and the other seven bits of byte i are
      kept. */
  lemma WithBit0Facts(report: seq<Byte>, i: nat, on: bool)
    requires i < |report|
    ensures var r := WithBit0(report, i, on);
            |r| == |report| && Bit(r[i], 0) == on &&
            (forall k :: 1 <= k < 8 ==> Bit(r[i], k) == Bit(report[i], k)) &&
            (forall j :: 0 <= j < |report| && j != i ==> r[j] == report[j])
  {
    var b := report[i];
    var nb := if on then b | 0x01 else b & 0xFE;
    assert Bit(nb, 0) == on;
    forall k: nat | 1 <= k < 8
      ensures Bit(nb, k) == Bit(b, k)
    {
      KeepsHighBit(b, on, k);
    }
  }

  lemma KeepsHighBit(b: Byte, on: bool, k: nat)
    requires 1 <= k < 8
    ensures Bit(if on then b | 0x01 else b & 0xFE, k) == Bit(b, k)
  {
  }

  /** Edits of two different bytes commute, so the N and the L light can be
      set in either order. */
  lemma WithBit0Commutes(report: seq<Byte>, i: nat, j: nat, on1: bool, on2: bool)
    requires i < |report| && j < |report| && i != j
    ensures WithBit0(WithBit0(report, i, on1), j, on2) == WithBit0(WithBit0(report, j, on2), i, on1)
  {
  }

  /** The last edit of a light wins: setting it and then setting it again
      gives the report of the second edit alone; in particular repeating
      the same call changes nothing more. */
  lemma WithBit0LastWins(report: seq<Byte>, i: nat, on1: bool, on2: bool)
    requires i < |report|
    ensures WithBit0(WithBit0(report, i, on1), i, on2) == WithBit0(report, i, on2)
  {
    var b := report[i];
    assert ((b | 0x01) & 0xFE) == b & 0xFE;
    assert ((b & 0xFE) | 0x01) == b | 0x01;
  }
}
