# flightbridge core in Dafny

flightbridge turns HID joystick and switch-panel input into vJoy output. This
project models the parts of it that carry logic and proves what they promise:

- **The binding engine** (mapper.py). `Mapper.map_state_to_vjoy` runs one device
  snapshot against the profile's binding list:
  - axis bindings invert, scale and clamp;
  - button bindings copy;
  - hat bindings go through a hat-tuple to POV-degree table;
  - flight panel switches are cached in `_prev_state`, and in toggle mode they
    arm timed pulses in `_pulse_timers`;
  - a second pass re-asserts direct-mode switch buttons from the cache, for one
    input or as an AND over several.
  
  `MapperSpec` states one call as functions: `MapCall`, built from `FirstPass`
  and `SecondPass`. `MapperEngine.Mapper` is the class with the two
  dictionaries, and its `Map` method, written with the source's loops, is
  proved to compute `MapCall`. `MapperLemmas` proves what the engine promises
  about `MapCall`.
- **The Flight Switch Panel decoder** (devices/flight_panel.py). It skips the
  report ID, turns bits into at most twenty switches, and passes a snapshot on
  only when it changed.
- **The X-55 report parser** (devices/x55_hidapi.py). It covers:
  - five axes, clamped, smoothed and passed through a deadzone;
  - sixteen buttons from two bit fields and a centred hat;
  - the tolerance comparison that gates emission.
- **The vJoy encoder** (vjoy/output.py):
  - axis values to 0..0x8000 through `AXIS_MAP`;
  - pressed button ids to the 32-bit `lButtons` mask;
  - POV degrees to hundredths;
  - the four-slot queue that drops the oldest command.
- **The LED control** (devices/flight_panel_leds.py): read-modify-write of
  bit 0 of bytes 1 and 2 of the panel's feature report.

Python's `str.startswith`, `s.split(".")[-1]`, `int(s)` and `f"{n}"` are
modelled in `PyText`. A `ValueError` from `int()` is `Raised` (module
`Wrappers`). Floats are Dafny `real`. The clock is an integer number of
milliseconds passed to `Map` as `now`.

## Model

| member | source | states |
|---|---|---|
| MapperEngine.Mapper.constructor | mapper.py:11-14 | A new mapper keeps the binding list, with an empty switch cache and no pulse timers |
| MapperEngine.Mapper.Map | mapper.py:22-227 | One call returns the command of `MapCall` (or raises when it raises) and leaves `_prev_state` and `_pulse_timers` as `MapCall` says |
| MapperEngine.Mapper.MapSingleInput | mapper.py:36-153 | The `try` block of a single-input binding updates the command, cache and timers exactly as `SingleInput` |
| MapperEngine.Mapper.MapSwitch | mapper.py:88-123 | The `flightpanel.switch` block caches the switch and arms pulses exactly as `SwitchStep` |
| MapperEngine.Mapper.CacheSwitchState | mapper.py:99-123 | The toggle/direct branch: caches the new value, and in toggle mode arms `now + pulse_ms` on a qualifying edge, as `CacheSwitch` |
| MapperEngine.Mapper.RefreshFromPanel | mapper.py:158-172 | The multi-input refresh caches each switch entry in order, stopping at an index that fails to parse; the timers are untouched |
| MapperEngine.Mapper.ApplyPulseTimers | mapper.py:174-186 | Buttons with a live timer are forced on, and afterwards exactly the live timers remain |
| MapperEngine.Mapper.ScanTimers | mapper.py:176-182 | The timer loop forces exactly the live buttons on and collects exactly the expired ids |
| MapperEngine.Mapper.DeleteTimers | mapper.py:184-186 | Deleting the collected ids removes exactly them from the timers |
| MapperEngine.Mapper.AllTrue | mapper.py:209-223 | The `all_true` loop with its `break` computes `AllSwitchesOn`, raising on an unparsable index |
| MapperEngine.Mapper.ReassertDirect | mapper.py:188-224 | The second pass gives the buttons of `SecondPass`, or raises when it raises |
| MapperEngine.ExpiredComplement | mapper.py:177-186 | Removing the expired ids from the timers leaves exactly the live ones |
| MapperSpec.AxisValue | mapper.py:43-49 | The written axis value lies in [-1, 1]; it equals the inverted, scaled input when that is in range and saturates at the nearer end otherwise |
| PyText.LastField | mapper.py:42 | `split(sep)[-1]` is the longest suffix free of `sep`, preceded by `sep` unless it is the whole string |
| PyText.ParseInt | mapper.py:42 | `int()` succeeds only on non-empty text, and on a digit string it gives the digits' decimal value |
| PyText.ParseIntAccepts | mapper.py:42 | `int()` succeeds exactly on ASCII digits with an optional leading `+` or `-`, and raises on everything else; after `+` the value is the digits' value, after `-` its negation |
| PyText.ParseShowInt | mapper.py:99 | Parsing the rendering of a number gives the number back |
| PyText.ShowIntInjective | mapper.py:99 | Distinct switch indices give distinct cache keys |
| PyText.LastFieldAfterSep | mapper.py:42 | The last field of `prefix + t` is `t` when the prefix ends with the separator and `t` has none |
| MapperLemmas.HatToPovMatchesCompass | mapper.py:59-83 | The eight compass directions read 45*k degrees, every other tuple reads -1, and an absent hat (-1, -1) reads 225 |
| MapperLemmas.AxisInvertScaleExample | tests/test_mapper.py:8-16 | `invert: true, scale: 0.5` on input 1.0 gives -0.5 |
| MapperLemmas.TestProfileCall | tests/test_mapper.py:5-17 | The test profile on the test snapshot yields AXIS_X = -0.5 and button 1 pressed, without raising |
| MapperLemmas.AxisBindingWrites | mapper.py:41-52 | A routed axis binding with an `axis:` target writes the transformed value (a missing axis read as 0.0) under the target's name and changes nothing else |
| MapperLemmas.ButtonBindingCopies | mapper.py:53-58 | An x55 or ch_throttle button binding copies the button (absent reads False) to `button:N` whatever its `mode`, and changes nothing else |
| MapperLemmas.HatBindingWrites | mapper.py:59-87 | A hat binding writes the degree of the looked-up hat (absent reads (-1, -1)) to `pov:N` and changes nothing else |
| MapperLemmas.SingleInputKeepsCache | mapper.py:41-153 | Only the switch block touches the cache and the timers |
| MapperLemmas.SingleInputAxes | mapper.py:41-153 | A single-input binding writes axes only through the axis blocks, with values in [-1, 1] |
| MapperLemmas.FirstPassAxesInRange | mapper.py:28-155 | The first pass keeps every axis of the command in [-1, 1] |
| MapperLemmas.MapAxesInRange | mapper.py:41-52 | Every axis value a call returns lies in [-1, 1], whatever the inputs, `invert` and `scale` |
| MapperLemmas.SkippedBinding | mapper.py:36-42 | A single-input binding with no target, or whose source index is not an integer, leaves everything unchanged |
| MapperLemmas.ForeignDeviceIgnored | mapper.py:41-153 | A single-input binding whose source does not start with the event's device name does nothing |
| MapperLemmas.RoutedHasDevicePrefix | mapper.py:41-153 | Every routed source starts with the device name and a dot |
| MapperLemmas.SwitchBindingStep | mapper.py:88-123 | On a panel event, a switch-to-button binding runs the cache update for its switch and button |
| MapperLemmas.ToggleCache | mapper.py:101-120 | Toggle mode always caches the new value, and it arms `now + pulse_ms` exactly when a cached value exists, differs, and the trigger accepts the direction |
| MapperLemmas.CacheSwitchPulses | mapper.py:101-123 | The cache update arms at most its own button, only in toggle mode, and removes no timer |
| MapperLemmas.SwitchStepPulses | mapper.py:88-123 | A switch binding arms only the button its `button:` target names, in toggle mode, and removes no timer |
| MapperLemmas.BindingStepPulses | mapper.py:28-172 | Any binding changes a timer only if it is a toggle binding for that button, and then sets it to `now + pulse_ms`; no timer is removed |
| MapperLemmas.PulseArmer | mapper.py:115-116 | A timer changed by the first pass was set by an identified toggle binding of the list |
| MapperLemmas.FirstPassPulseOrigin | mapper.py:28-172 | After the first pass each timer is either unchanged or was armed by a toggle binding of the list |
| MapperLemmas.FirstPassPulseKept | mapper.py:28-172 | A timer that no binding of the list can arm survives the first pass unchanged |
| MapperLemmas.PulsesAfterCall | mapper.py:174-186 | After a call every timer is live; each one is an older live timer unchanged or was armed now; a live timer no binding can re-arm is kept |
| MapperLemmas.ToggleArmsAfterCall | mapper.py:101-120 | On a panel event, a toggle binding whose switch was cached with another value and whose trigger accepts the change leaves `now + pulse_ms` armed for its button after the call (no later binding re-arming it, `pulse_ms` > 0), and the returned button is pressed unless a direct binding writes it |
| MapperLemmas.PulseForcesButton | mapper.py:176-180 | A button with a live timer is pressed in the result unless a direct-mode binding writes it |
| MapperLemmas.DirectSwitchLastWriter | mapper.py:190-207 | The last direct binding for a button decides it: the button ends as its switch's cached value |
| MapperLemmas.DirectSwitchReasserted | mapper.py:121-207 | On any device's event, the button of a direct switch binding equals the cached switch value, overriding a pulse on the same id |
| MapperLemmas.DirectSwitchUnseen | mapper.py:199-206 | When the switch of the last direct binding of a button was never cached, that binding writes nothing: the returned button is what the bindings before it left, and with no other direct writer it is the first pass's value with live pulses forced on |
| MapperLemmas.SecondPassUnwritten | mapper.py:190-224 | Buttons no direct binding writes keep their value through the second pass |
| MapperLemmas.AllSwitchesOnMeaning | mapper.py:209-223 | The AND is true exactly when every switch entry is seen and on (other entries are ignored); with parsable indices it never raises |
| MapperLemmas.MultiInputAnd | mapper.py:209-224 | A multi-input direct button ends true exactly when all its switch entries are seen and on |
| MapperLemmas.DirectBadTargetRaises | mapper.py:196-199 | A direct `button:` binding with a non-integer id makes the call raise, after the first pass's cache and timer updates |
| MapperLemmas.SecondPassRaisedPersists | mapper.py:190-224 | Once the second pass raises, nothing after it runs |
| MapperLemmas.NonPanelEventKeepsCache | mapper.py:88-172 | Events from other devices never change the switch cache |
| MapperLemmas.NonPanelBindingKeepsCache | mapper.py:88-172 | On a non-panel event no single binding changes the cache |
| MapperLemmas.RefreshSwitchesMerge | mapper.py:165-170 | The multi-input refresh overwrites the cache with the refreshed entries and keeps the rest |
| MapperLemmas.SwitchStepCacheMerge | mapper.py:88-123 | A switch binding's cache update does not depend on the earlier cache, except for keeping its other entries |
| MapperLemmas.BindingStepCacheMerge | mapper.py:28-172 | Each binding's cache update is an overwrite independent of the earlier cache |
| MapperLemmas.FirstPassCacheMerge | mapper.py:28-172 | The cache after a call is the old cache overwritten by what the snapshot alone writes, whatever the clock |
| MapperLemmas.CacheIgnoresClock | mapper.py:99-123 | The cache update does not depend on the time |
| MapperLemmas.RepeatedSnapshotKeepsCache | mapper.py:88-172 | Feeding the same snapshot again leaves the cache as it was |
| X55.Clamp | devices/x55_hidapi.py:150-152 | The clamp returns the point of [-1, 1] nearest its input |
| X55.RawAxis | devices/x55_hidapi.py:142-148 | A byte becomes a value in [-1, 1), with 128 as the centre 0 |
| X55.X55Reader.constructor | devices/x55_hidapi.py:46-48 | A new reader has no smoothing memory and no last state |
| X55.X55Reader.SmoothAxis | devices/x55_hidapi.py:188-197 | Returns the smoothed value and stores it; nothing else changes |
| X55.X55Reader.ParseReport | devices/x55_hidapi.py:98-176 | Parses a report into the state and smoothing memory of `ParseSpec` |
| X55.X55Reader.ParseButtons | devices/x55_hidapi.py:156-162 | The nested loop yields button `8*i + bit` as bit `bit` of byte `ButtonBytes[i]` |
| X55.X55Reader.StatesEqualCheck | devices/x55_hidapi.py:199-223 | The early-return comparison computes `StatesEqual` |
| X55.X55Reader.Poll | devices/x55_hidapi.py:256-264 | One read: parse, then emit and remember the state exactly as `Gate` says |
| X55.ShortReportSkipped | devices/x55_hidapi.py:112-114 | A report under nine bytes yields nothing and leaves the smoothing memory alone |
| X55.AxesUpToKeys | devices/x55_hidapi.py:144-154 | The axis section produces exactly axes 0..4 and adds only those to the smoothing memory |
| X55.AxesUpToValues | devices/x55_hidapi.py:150-154 | Each axis is the deadzone of the value smoothed from its clamped byte, and that smoothed value is what is stored |
| X55.ParseShape | devices/x55_hidapi.py:156-173 | Device `x55`, hat 0 centred, exactly 16 buttons (button i = bit i%8 of byte 6 + i/8) and exactly five axes |
| X55.DeadzoneBounds | devices/x55_hidapi.py:178-186 | On [-1, 1] with 0 < dz < 1: the result stays in [-1, 1]; the dead band gives 0 and nothing beyond it does; the sign is kept; ±1 are fixed points |
| X55.DeadzoneMonotone | devices/x55_hidapi.py:178-186 | The deadzone never reorders two values |
| X55.SmoothingApproaches | devices/x55_hidapi.py:188-197 | The first value passes through, a steady input stays put, and the gap to the input shrinks to 70% per report |
| X55.SmoothedInRange | devices/x55_hidapi.py:188-197 | Smoothing values in [-1, 1] stays in [-1, 1] |
| X55.AxesInRange | devices/x55_hidapi.py:150-154 | Every parsed axis and every stored smoothed value stays in [-1, 1] |
| X55.StatesEqualFacts | devices/x55_hidapi.py:199-223 | Never equal to None; a state equals itself; different buttons or hats are never equal |
| X55.GateFacts | devices/x55_hidapi.py:258-264 | A parsed state is emitted and remembered exactly when it is not equal to the last one; the first is always emitted; a repeat never is |
| DeviceStates.MaskBit | devices/x55_hidapi.py:162 | `b & (1 << k)` being non-zero is bit k of `b` |
| VJoy.ToVJoyAxis | vjoy/output.py:142-146 | The vJoy axis value always lies in [0, 0x8000] |
| VJoy.ToVJoyAxisFacts | vjoy/output.py:142-146 | -1, 0 and 1 map to 0, 0x4000 and 0x8000; the mapping is monotone and saturates outside [-1, 1] |
| VJoy.TruncateMonotone | vjoy/output.py:144 | `int()` truncation never reorders two values |
| VJoy.AxisMapInjective | vjoy/output.py:57-70 | No two axis names write the same field |
| VJoy.WriteAxesFacts | vjoy/output.py:155-162 | Each known axis name gets its converted value, unknown names are skipped, and fields not named keep their values |
| VJoy.OrButtonBits | vjoy/output.py:168 | OR-ing `1 << (id - 1)` sets bit id-1 and keeps every other bit |
| VJoy.EncodingUnique | vjoy/output.py:164-169 | Two words that encode the same button map are equal |
| VJoy.HatsValueFacts | vjoy/output.py:175-187 | `bHats` is 0xFFFF exactly for -1; any other degree gives a multiple of 100 in [0, 35900] that reads back as the degree mod 360 |
| VJoy.EnqueueFacts | vjoy/output.py:111-124 | After `apply` the new command is last and the length is at most 4; a full queue loses exactly its oldest command, otherwise nothing is lost |
| VJoy.QueueKeepsLatest | vjoy/output.py:111-124 | After any run of `apply` calls the queue holds exactly the latest commands, as many as fit |
| VJoy.VJoyOutput.constructor | vjoy/output.py:83-109 | A new output has an empty queue and a zeroed position record; `acquired` is the driver's answer |
| VJoy.VJoyOutput.Apply | vjoy/output.py:111-124 | The queue becomes `Enqueue` of the old queue; the position record is untouched |
| VJoy.VJoyOutput.SetAxes | vjoy/output.py:155-162 | The axis loop leaves the fields of `WriteAxes` |
| VJoy.VJoyOutput.ButtonWord | vjoy/output.py:164-169 | Raises exactly when a pressed id is below 1; otherwise the word has bit k set iff button k+1 is pressed, for k < 32 |
| VJoy.VJoyOutput.SetPovs | vjoy/output.py:175-187 | Only POV 0 is written, as `HatsValue` of its degree; without POV 0 `bHats` is unchanged |
| VJoy.VJoyOutput.ApplyToDevice | vjoy/output.py:148-194 | If not acquired, nothing changes. If acquired: axes are written; a bad button id stops before the buttons and POV, with no update sent; otherwise `lButtons` encodes exactly the pressed buttons, POV 0 is written and the update is sent |
| FlightPanel.FlightPanelReader.constructor | devices/flight_panel.py:25-31 | A new reader has no last state |
| FlightPanel.FlightPanelReader.ParseAndEmit | devices/flight_panel.py:81-110 | The nested byte/bit loop decodes and gates the report exactly as `EmitStep` |
| FlightPanel.ShortReportIgnored | devices/flight_panel.py:87-88 | A report under three bytes emits nothing and keeps the last state |
| FlightPanel.DecodeShape | devices/flight_panel.py:92-105 | Device `flightpanel`, no axes or hats; switches exactly 0..min(20, 8*len(payload))-1, switch i being bit i%8 of payload byte i/8 |
| FlightPanel.SwitchCountBounds | devices/flight_panel.py:101-105 | A valid report yields between 16 and 20 switches, and 20 once the payload has three bytes |
| FlightPanel.EmitOnlyOnChange | devices/flight_panel.py:107-110 | A snapshot is emitted exactly when it differs from the last one, and then it becomes the last one |
| FlightPanel.SameReportTwice | devices/flight_panel.py:107-110 | The same report fed twice is emitted at most once |
| FlightPanel.DecodeEncode | devices/flight_panel.py:99-105 | Decoding the report a panel sends for twenty switches gives those switches back |
| FlightPanelLeds.FlightPanelLEDControl.constructor | devices/flight_panel_leds.py:32-51 | The state `connect` leaves: the device open or not, and the last report read from it |
| FlightPanelLeds.FlightPanelLEDControl.SetLight | devices/flight_panel_leds.py:62-104 | Succeeds exactly when the device is open, the byte exists and the send works; then only bit 0 of byte i is edited, and otherwise the report is unchanged |
| FlightPanelLeds.FlightPanelLEDControl.SetNLight | devices/flight_panel_leds.py:62-82 | `set_n_light`: as `SetLight` on byte 1 |
| FlightPanelLeds.FlightPanelLEDControl.SetLLight | devices/flight_panel_leds.py:84-104 | `set_l_light`: as `SetLight` on byte 2 |
| FlightPanelLeds.FlightPanelLEDControl.SetLandingGear | devices/flight_panel_leds.py:106-110 | N then L follow the gear; when both sends succeed both bits equal `down`; with no device nothing changes |
| FlightPanelLeds.WithBit0Facts | devices/flight_panel_leds.py:69-74 | The edit makes bit 0 of byte i equal to `on` and keeps the length, every other byte and the other seven bits |
| FlightPanelLeds.WithBit0Commutes | devices/flight_panel_leds.py:106-110 | Edits of the N and the L byte commute |
| FlightPanelLeds.WithBit0LastWins | devices/flight_panel_leds.py:71-74 | The last edit of a light wins, so repeating a call changes nothing more |

## Left out

- I/O and threads are not modelled: the reader threads, `start`/`stop`/`subscribe`/`_emit`, reconnect and sleep logic, hid enumeration and opening, the vJoy DLL calls (`AcquireVJD`, `UpdateVJD`, `RelinquishVJD`), the queue's thread safety, the LED lock, and logging. Whether the driver acquired the device and whether `send_feature_report` fails are parameters.
- `Mapper.load_profile` and YAML parsing are not modelled. The profile is given as a list of `Binding` records. An absent `input`/`target` is the empty string, an absent `inputs` is the empty list, and an absent `props` entry is `None`.
- Floats are Dafny `real`, so IEEE rounding is not modelled. `pytest.approx` in the test therefore becomes exact equality.
- A non-numeric `scale`, or a value `float()` rejects, is not modelled; `scale` is a number.
- MapperSpec.Props: the typed record also leaves out four kinds of `props` value the source accepts or fails on:
  - `props: null` on a binding: `b.get("props", {})` is then `None`, and the `props.get` of the second pass raises for every `button:` target (mapper.py:194-197). That `AttributeError` escapes every call. In the first pass the axis and switch blocks and the multi-input refresh skip such a binding.
  - A fractional `pulse_ms` such as 150.5 is valid at mapper.py:116; `pulseMs` is an integer number of milliseconds.
  - A non-numeric `pulse_ms` raises at mapper.py:116 before the cache write at mapper.py:120, so the same edge is seen again on the next call.
  - `invert` is read by truthiness (mapper.py:45, 128, 146), so `"false"` or `1` inverts; the model's `invert` is that truth value, not the raw entry.
- MapperSpec.Props: an explicit `null` in a binding's `props` is read as an absent key, so the engine's default applies. The source behaves differently. `props.get(k, default)` returns `None` for an explicit null. Then `scale: null` makes `float(None)` raise and the binding is skipped. `pulse_ms: null` raises at `None / 1000.0` before the cache update. `mode: null` is neither direct nor toggle, so the switch is cached without pulsing and the second pass skips it. `trigger: null` never pulses. These null cases are not modelled.
- `int()` is modelled as an optional sign followed by ASCII digits. Whitespace, underscores and non-ASCII digits are not accepted. `ValueError` is the only exception modelled.
- MapperEngine.Mapper.Map: the source reads `time.time()` in seconds at two points (mapper.py:116 and 176). The model uses one integer-millisecond clock value `now` for the whole call, with expiry `now + pulse_ms`.
- X55.ApplyDeadzone: requires a deadzone other than 1, where the source divides by zero. The reader always uses 0.05.
- VJoy.VJoyOutput.ButtonWord: `lButtons` is the 32-bit field of the position record. Ids above 32 set bits the field does not have and are dropped.
- `bHats` is written with the value the source computes, not truncated to a field width. The other members of the position record (`bDevice`, the unused axes, `bHatsEx*`) are not modelled.
- FlightPanelLeds.FlightPanelLEDControl.constructor: models the state after `connect`. `__init__` with no device corresponds to `isOpen == false`. `connect` and `disconnect` themselves are hardware calls.
- The X-55 report's byte 6 is read both as axis 4 and as buttons 0-7, because the code reads buttons from bytes 6 and 7. The docstring and the diagnostic log speak of bytes 7-8; the model follows the code.
- The `_report_count` diagnostics (devices/x55_hidapi.py:117-124) and the unreachable code after `return True` in `_states_equal` are not modelled.
- devices/x55_directinput.py, devices/ch_throttle.py and app.py are not part of this model.
