/** The data records that travel between the device readers, the binding
    engine and the vJoy writer (core/state.py), and the raw HID byte. */
module DeviceStates {

  /** One byte of a raw HID report. */
  type Byte = bv8

  /** Bit `k` of a byte, least significant first: `(b >> k) & 1`. */
  predicate Bit(b: Byte, k: nat)
    requires k < 8
  {
    (b >> k) & 1 == 1
  }

  /** The same bit read through a mask, `b & (1 << k)`, as the X-55 parser
      reads it. */
  function MaskBit(b: Byte, k: nat): (on: bool)
    requires k < 8
    ensures on <==> Bit(b, k)
  {
    b & (1 << k) != 0
  }

  /** A hat position `(x, y)` as the readers report it. */
  datatype Hat = Hat(x: int, y: int)

  /** One snapshot of one device: the dictionary with keys `device`, `axes`,
      `buttons` and `hats` that every reader emits. A key missing from the
      dictionary is modelled as an empty map. */
  datatype DeviceState = DeviceState(
    device: string,
    axes: map<int, real>,
    buttons: map<int, bool>,
    hats: map<int, Hat>)

  /** `VJoyCommand`: axis name to a value in -1..1, button id to pressed,
      POV id to degrees or -1 for centred. */
  datatype VJoyCommand = VJoyCommand(
    axes: map<string, real>,
    buttons: map<int, bool>,
    povs: map<int, int>)

  const EmptyCommand: VJoyCommand := VJoyCommand(map[], map[], map[])
}
