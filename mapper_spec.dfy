/** The binding engine of mapper.py as functions: what one call of
    `Mapper.map_state_to_vjoy` computes from the binding list, the incoming
    snapshot, the clock and the two dictionaries the engine keeps between
    calls (`_prev_state`, `_pulse_timers`). The class in mapper_engine.dfy
    is proved to compute exactly `MapCall`. */
module MapperSpec {
  import opened Wrappers
  import opened PyText
  import opened DeviceStates

  /** The `props` dictionary of a binding. `invert` is its truthiness; an
      absent key is `None` and takes the engine's default. */
  datatype Props = Props(
    invert: bool,
    scale: Option<real>,
    mode: Option<string>,
    pulseMs: Option<int>,
    trigger: Option<string>)

  /** One entry of the profile's `bindings` list. An absent or empty `input`
      or `target` is "", an absent or empty `inputs` list is []. */
  datatype Binding = Binding(input: string, inputs: seq<string>, target: string, props: Props)

  const DefaultPulseMs: int := 100

  /** The `_prev_state` key of flight panel switch `idx`. */
  function SwitchKey(idx: int): string {
    "flightpanel.switch." + ShowInt(idx)
  }

  /** `int(src.split(".")[-1])`: the index a source names, `None` when the
      conversion raises. */
  function SourceIndex(src: string): Option<int> {
    ParseInt(LastField(src, '.'))
  }

  predicate IsSwitchSource(src: string) {
    StartsWith(src, "flightpanel.switch")
  }

  /** `mode` defaults to "direct", `trigger` to "on_change", `pulse_ms` to 100. */
  function ModeOf(p: Props): string { p.mode.GetOr("direct") }
  function TriggerOf(p: Props): string { p.trigger.GetOr("on_change") }
  function PulseMsOf(p: Props): int { p.pulseMs.GetOr(DefaultPulseMs) }

  /** Invert, then scale (default 1.0), then `max(-1.0, min(1.0, v))`: the
      value is the point of [-1, 1] nearest to the scaled input. */
  function AxisValue(v: real, p: Props): (r: real)
    ensures -1.0 <= r <= 1.0
    ensures var s := (if p.invert then -v else v) * p.scale.GetOr(1.0);
            (-1.0 <= s <= 1.0 ==> r == s) && (s > 1.0 ==> r == 1.0) && (s < -1.0 ==> r == -1.0)
  {
    var s := (if p.invert then -v else v) * p.scale.GetOr(1.0);
    var upper := if 1.0 < s then 1.0 else s;
    if -1.0 > upper then -1.0 else upper
  }

  /** The eight hat directions clockwise from "up"; direction k is 45*k degrees. */
  const Compass: seq<Hat> :=
    [Hat(0, 1), Hat(1, 1), Hat(1, 0), Hat(1, -1), Hat(0, -1), Hat(-1, -1), Hat(-1, 0), Hat(-1, 1)]

  /** The hat-tuple to POV-degree table: -1 for centred and for any tuple
      that is not one of the eight directions. */
  function HatToPov(h: Hat): int {
    if h == Hat(0, 0) then -1
    else if h == Hat(0, 1) then 0
    else if h == Hat(1, 1) then 45
    else if h == Hat(1, 0) then 90
    else if h == Hat(1, -1) then 135
    else if h == Hat(0, -1) then 180
    else if h == Hat(-1, -1) then 225
    else if h == Hat(-1, 0) then 270
    else if h == Hat(-1, 1) then 315
    else -1
  }

  /** The toggle-mode edge test: a cached previous value exists, it differs
      from the new one, and the trigger accepts the direction of change. */
  predicate TogglePulses(prevSt: Option<bool>, st: bool, trigger: string) {
    prevSt.Some? && prevSt.value != st &&
    (trigger == "on_change" || (trigger == "on_press" && st) || (trigger == "on_release" && !st))
  }

  /** What the first pass carries from binding to binding. */
  datatype Pass = Pass(prev: map<string, bool>, pulses: map<int, int>, cmd: VJoyCommand)

  /** An `x55.axes`, `ch_throttle.axes` or `flightpanel.axis` binding. */
  function AxisStep(src: string, tgt: string, props: Props, axes: map<int, real>, cmd: VJoyCommand): VJoyCommand {
    match SourceIndex(src)
    case None => cmd
    case Some(idx) =>
      var v := AxisValue(Lookup(axes, idx, 0.0), props);
      if StartsWith(tgt, "axis:") then cmd.(axes := cmd.axes[tgt[5..] := v]) else cmd
  }

  /** An `x55.button` or `ch_throttle.button` binding: `mode` is not read. */
  function ButtonStep(src: string, tgt: string, buttons: map<int, bool>, cmd: VJoyCommand): VJoyCommand {
    match SourceIndex(src)
    case None => cmd
    case Some(idx) =>
      var st := Lookup(buttons, idx, false);
      if StartsWith(tgt, "button:") then
        match ParseInt(tgt[7..])
        case None => cmd
        case Some(id) => cmd.(buttons := cmd.buttons[id := st])
      else cmd
  }

  /** An `x55.hat` binding: an absent hat reads as (-1, -1). */
  function HatStep(src: string, tgt: string, hats: map<int, Hat>, cmd: VJoyCommand): VJoyCommand {
    match SourceIndex(src)
    case None => cmd
    case Some(idx) =>
      var deg := HatToPov(Lookup(hats, idx, Hat(-1, -1)));
      if StartsWith(tgt, "pov:") then
        match ParseInt(tgt[4..])
        case None => cmd
        case Some(id) => cmd.(povs := cmd.povs[id := deg])
      else cmd
  }

  /** A single `flightpanel.switch` binding in the first pass: caches the
      switch and, in toggle mode, arms a pulse on a qualifying edge. Only a
      `button:` target with an integer id does anything. */
  function SwitchStep(src: string, tgt: string, props: Props, buttons: map<int, bool>, now: int, p: Pass): Pass {
    match SourceIndex(src)
    case None => p
    case Some(idx) =>
      var st := Lookup(buttons, idx, false);
      if StartsWith(tgt, "button:") then
        match ParseInt(tgt[7..])
        case None => p
        case Some(btn) => CacheSwitch(SwitchKey(idx), st, btn, props, now, p)
      else p
  }

  /** Caches the new switch value under `key`; in toggle mode first arms a
      pulse for button `btn` when the change qualifies. */
  function CacheSwitch(key: string, st: bool, btn: int, props: Props, now: int, p: Pass): Pass {
    if ModeOf(props) == "toggle" then
      var prevSt := if key in p.prev then Some(p.prev[key]) else None;
      var pulses :=
        if TogglePulses(prevSt, st, TriggerOf(props)) then p.pulses[btn := now + PulseMsOf(props)]
        else p.pulses;
      Pass(p.prev[key := st], pulses, p.cmd)
    else
      p.(prev := p.prev[key := st])
  }

  /** Which of the source's seven single-input blocks a binding enters: the
      source prefix and the event's device must both match. The prefixes are
      pairwise exclusive, so at most one block runs and this chain is the
      same dispatch as the source's sequence of `if`s. */
  datatype Route = X55Axis | X55Button | X55Hat | PanelSwitch | ThrottleAxis | ThrottleButton | PanelAxis | Unrouted

  function RouteOf(src: string, dev: string): Route {
    if StartsWith(src, "x55.axes") && dev == "x55" then X55Axis
    else if StartsWith(src, "x55.button") && dev == "x55" then X55Button
    else if StartsWith(src, "x55.hat") && dev == "x55" then X55Hat
    else if IsSwitchSource(src) && dev == "flightpanel" then PanelSwitch
    else if StartsWith(src, "ch_throttle.axes") && dev == "ch_throttle" then ThrottleAxis
    else if StartsWith(src, "ch_throttle.button") && dev == "ch_throttle" then ThrottleButton
    else if StartsWith(src, "flightpanel.axis") && dev == "flightpanel" then PanelAxis
    else Unrouted
  }

  /** A binding with a single `input` and a non-empty `target`. */
  function SingleInput(b: Binding, st: DeviceState, now: int, p: Pass): Pass {
    var src, tgt := b.input, b.target;
    match RouteOf(src, st.device)
    case X55Axis | ThrottleAxis | PanelAxis => p.(cmd := AxisStep(src, tgt, b.props, st.axes, p.cmd))
    case X55Button | ThrottleButton => p.(cmd := ButtonStep(src, tgt, st.buttons, p.cmd))
    case X55Hat => p.(cmd := HatStep(src, tgt, st.hats, p.cmd))
    case PanelSwitch => SwitchStep(src, tgt, b.props, st.buttons, now, p)
    case Unrouted => p
  }

  /** The cache refresh of a multi-input binding on a flight panel event:
      each `flightpanel.switch` entry in order; an entry whose index does not
      parse raises and ends the refresh, keeping the entries before it. */
  function RefreshSwitches(items: seq<string>, buttons: map<int, bool>, prev: map<string, bool>): map<string, bool>
    decreases |items|
  {
    if |items| == 0 then prev
    else if IsSwitchSource(items[0]) then
      match SourceIndex(items[0])
      case None => prev
      case Some(idx) => RefreshSwitches(items[1..], buttons, prev[SwitchKey(idx) := Lookup(buttons, idx, false)])
    else RefreshSwitches(items[1..], buttons, prev)
  }

  /** One binding of the first pass, inside its `try`. */
  function BindingStep(b: Binding, st: DeviceState, now: int, p: Pass): Pass {
    if b.input != "" && |b.inputs| == 0 then
      if b.target == "" then p else SingleInput(b, st, now, p)
    else if |b.inputs| > 0 && b.target != "" then
      if st.device == "flightpanel" then p.(prev := RefreshSwitches(b.inputs, st.buttons, p.prev)) else p
    else p
  }

  /** The first pass over the whole binding list, in list order. */
  function FirstPass(bs: seq<Binding>, st: DeviceState, now: int, p: Pass): Pass
    decreases |bs|
  {
    if |bs| == 0 then p
    else BindingStep(bs[|bs| - 1], st, now, FirstPass(bs[..|bs| - 1], st, now, p))
  }

  /** The timers that survive the purge: those whose expiry is still ahead. */
  function LivePulses(pulses: map<int, int>, now: int): map<int, int> {
    map k | k in pulses && now < pulses[k] :: pulses[k]
  }

  /** Every button with a live timer is forced on; others keep their value. */
  function ForcePulses(buttons: map<int, bool>, pulses: map<int, int>, now: int): map<int, bool> {
    buttons + map k | k in pulses && now < pulses[k] :: true
  }

  /** The AND loop of a multi-input direct binding: true iff every
      `flightpanel.switch` entry is cached and true; the loop stops at the
      first entry that is not, and an unparsable index raises. */
  function AllSwitchesOn(items: seq<string>, prev: map<string, bool>): Result<bool>
    decreases |items|
  {
    if |items| == 0 then Ok(true)
    else if IsSwitchSource(items[0]) then
      match SourceIndex(items[0])
      case None => Raised
      case Some(idx) =>
        if SwitchKey(idx) !in prev || !prev[SwitchKey(idx)] then Ok(false)
        else AllSwitchesOn(items[1..], prev)
    else AllSwitchesOn(items[1..], prev)
  }

  /** A `button:` binding in direct mode (the only ones the second pass reads). */
  predicate IsDirectButton(b: Binding) {
    StartsWith(b.target, "button:") && ModeOf(b.props) == "direct"
  }

  /** One binding of the second pass; it has no `try`, so a raise ends the call. */
  function DirectStep(b: Binding, prev: map<string, bool>, buttons: map<int, bool>): Result<map<int, bool>> {
    if IsDirectButton(b) then
      match ParseInt(b.target[7..])
      case None => Raised
      case Some(id) =>
        if b.input != "" && |b.inputs| == 0 then
          if IsSwitchSource(b.input) then
            match SourceIndex(b.input)
            case None => Raised
            case Some(idx) =>
              if SwitchKey(idx) in prev then Ok(buttons[id := prev[SwitchKey(idx)]]) else Ok(buttons)
          else Ok(buttons)
        else if |b.inputs| > 0 then
          match AllSwitchesOn(b.inputs, prev)
          case Raised => Raised
          case Ok(all) => Ok(buttons[id := all])
        else Ok(buttons)
    else Ok(buttons)
  }

  /** The second pass over the whole binding list, in list order. */
  function SecondPass(bs: seq<Binding>, prev: map<string, bool>, buttons: map<int, bool>): Result<map<int, bool>>
    decreases |bs|
  {
    if |bs| == 0 then Ok(buttons)
    else
      match SecondPass(bs[..|bs| - 1], prev, buttons)
      case Raised => Raised
      case Ok(bt) => DirectStep(bs[|bs| - 1], prev, bt)
  }

  /** What one call returns (or that it raised) and the two dictionaries
      after it. */
  datatype Outcome = Outcome(result: Result<VJoyCommand>, prev: map<string, bool>, pulses: map<int, int>)

  /** One call of `map_state_to_vjoy` at time `now` (milliseconds). */
  function MapCall(bs: seq<Binding>, st: DeviceState, now: int, prev: map<string, bool>, pulses: map<int, int>): Outcome {
    var p := FirstPass(bs, st, now, Pass(prev, pulses, EmptyCommand));
    var result :=
      match SecondPass(bs, p.prev, ForcePulses(p.cmd.buttons, p.pulses, now))
      case Raised => Raised
      case Ok(buttons) => Ok(p.cmd.(buttons := buttons));
    Outcome(result, p.prev, LivePulses(p.pulses, now))
  }
}
