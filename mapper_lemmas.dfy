/** What the binding engine promises, proved about `MapCall` and its parts. */
module MapperLemmas {
  import opened Wrappers
  import opened PyText
  import opened DeviceStates
  import opened MapperSpec

  // ---------------------------------------------------------------------
  // Per-binding transforms

  /** The hat table agrees with the compass: direction k of the eight reads
      45*k degrees, anything else (centred, or a tuple outside {-1,0,1}^2)
      reads -1; so an absent hat, read as (-1, -1), gives 225. */
  lemma HatToPovMatchesCompass(h: Hat)
    ensures HatToPov(h) == -1 <==> h !in Compass
    ensures forall k :: 0 <= k < |Compass| && Compass[k] == h ==> HatToPov(h) == 45 * k
    ensures HatToPov(Hat(-1, -1)) == 225
  {
  }

  /** The profile of tests/test_mapper.py: `invert: true, scale: 0.5` on a
      full-scale input gives -0.5. */
  lemma AxisInvertScaleExample()
    ensures AxisValue(1.0, Props(true, Some(0.5), None, None, None)) == -0.5
  {
  }

  /** The whole call on the profile of tests/test_mapper.py: an inverted,
      half-scaled axis at full deflection gives -0.5 on AXIS_X, and a pressed
      X-55 button 0 presses vJoy button 1. */
  lemma TestProfileCall()
    ensures var o := MapCall(TestBindings(), TestState(), 0, map[], map[]);
            o.result.Ok? && "AXIS_X" in o.result.value.axes && o.result.value.axes["AXIS_X"] == -0.5 &&
            1 in o.result.value.buttons && o.result.value.buttons[1]
  {
    var bs, st := TestBindings(), TestState();
    var p2 := TestFirstPass();
    TestSecondPass(p2);
  }

  function TestBindings(): seq<Binding> {
    [Binding("x55.axes.0", [], "axis:AXIS_X", Props(true, Some(0.5), None, None, None)),
     Binding("x55.button.0", [], "button:1", Props(false, None, None, None, None))]
  }

  function TestState(): DeviceState {
    DeviceState("x55", map[0 := 1.0], map[0 := true], map[])
  }

  lemma TestSourceIndices()
    ensures SourceIndex("x55.axes.0") == Some(0) && SourceIndex("x55.button.0") == Some(0)
    ensures ParseInt("1") == Some(1)
  {
    assert "x55.axes.0" == "x55.axes." + "0";
    LastFieldAfterSep("x55.axes.", "0", '.');
    assert "x55.button.0" == "x55.button." + "0";
    LastFieldAfterSep("x55.button.", "0", '.');
    assert AllDigits("0") && AllDigits("1");
  }

  lemma TestFirstPass() returns (p2: Pass)
    ensures FirstPass(TestBindings(), TestState(), 0, Pass(map[], map[], EmptyCommand)) == p2
    ensures p2.pulses == map[] && "AXIS_X" in p2.cmd.axes && p2.cmd.axes["AXIS_X"] == -0.5
    ensures 1 in p2.cmd.buttons && p2.cmd.buttons[1]
  {
    var bs, st := TestBindings(), TestState();
    var p0 := Pass(map[], map[], EmptyCommand);
    TestAxisBinding(p0);
    var p1 := BindingStep(bs[0], st, 0, p0);
    TestButtonBinding(p1);
    p2 := BindingStep(bs[1], st, 0, p1);
    assert bs[..1] == [bs[0]] && bs[..1][..0] == [];
    assert FirstPass(bs[..1], st, 0, p0) == p1;
  }

  lemma TestAxisBinding(p: Pass)
    ensures BindingStep(TestBindings()[0], TestState(), 0, p) == p.(cmd := p.cmd.(axes := p.cmd.axes["AXIS_X" := -0.5]))
  {
    var b, st := TestBindings()[0], TestState();
    TestSourceIndices();
    TestAxisPrefixes(b.input, b.target);
    AxisBindingWrites(b, st, 0, p, 0);
    assert Lookup(st.axes, 0, 0.0) == 1.0;
    AxisInvertScaleExample();
  }

  lemma TestAxisPrefixes(input: string, target: string)
    requires input == "x55.axes.0" && target == "axis:AXIS_X"
    ensures StartsWith(input, "x55.axes") && StartsWith(target, "axis:") && target[5..] == "AXIS_X"
  {
    assert input[..8] == "x55.axes" && target[..5] == "axis:";
  }

  lemma TestButtonBinding(p: Pass)
    ensures BindingStep(TestBindings()[1], TestState(), 0, p) == p.(cmd := p.cmd.(buttons := p.cmd.buttons[1 := true]))
  {
    var b := TestBindings()[1];
    TestSourceIndices();
    TestButtonPrefixes(b.input, b.target);
    ButtonBindingCopies(b, TestState(), 0, p, 0, 1);
  }

  lemma TestButtonPrefixes(input: string, target: string)
    requires input == "x55.button.0" && target == "button:1"
    ensures StartsWith(input, "x55.button") && StartsWith(target, "button:") && target[7..] == "1"
  {
    assert input[..10] == "x55.button" && target[..7] == "button:";
  }

  lemma TestSecondPass(p2: Pass)
    requires p2.pulses == map[]
    ensures SecondPass(TestBindings(), p2.prev, ForcePulses(p2.cmd.buttons, p2.pulses, 0)) == Ok(p2.cmd.buttons)
  {
    var bs := TestBindings();
    assert ForcePulses(p2.cmd.buttons, p2.pulses, 0) == p2.cmd.buttons;
    TestAxisNotDirect(p2.prev, p2.cmd.buttons);
    TestButtonNotSwitch(p2.prev, p2.cmd.buttons);
    assert bs[..1] == [bs[0]] && bs[..1][..0] == [];
    assert SecondPass(bs[..1], p2.prev, p2.cmd.buttons) == Ok(p2.cmd.buttons);
  }

  lemma TestAxisNotDirect(prev: map<string, bool>, buttons: map<int, bool>)
    ensures DirectStep(TestBindings()[0], prev, buttons) == Ok(buttons)
  {
    assert !StartsWith(TestBindings()[0].target, "button:") by { assert TestBindings()[0].target[0] == 'a'; }
  }

  lemma TestButtonNotSwitch(prev: map<string, bool>, buttons: map<int, bool>)
    ensures DirectStep(TestBindings()[1], prev, buttons) == Ok(buttons)
  {
    var b := TestBindings()[1];
    TestSourceIndices();
    assert b.target[7..] == "1";
    assert !IsSwitchSource(b.input) by { assert b.input[0] == 'x'; }
  }

  lemma AxisStepAxes(src: string, tgt: string, props: Props, axes: map<int, real>, cmd: VJoyCommand)
    ensures var out := AxisStep(src, tgt, props, axes, cmd);
            forall n :: n in out.axes ==> (n in cmd.axes && out.axes[n] == cmd.axes[n]) || -1.0 <= out.axes[n] <= 1.0
  {
  }

  lemma SwitchStepCmd(src: string, tgt: string, props: Props, buttons: map<int, bool>, now: int, p: Pass)
    ensures SwitchStep(src, tgt, props, buttons, now, p).cmd == p.cmd
  {
  }

  /** Outside the switch block a single-input binding leaves the cache and
      the timers alone. */
  lemma SingleInputKeepsCache(b: Binding, st: DeviceState, now: int, p: Pass)
    requires RouteOf(b.input, st.device) != PanelSwitch
    ensures SingleInput(b, st, now, p).prev == p.prev
    ensures SingleInput(b, st, now, p).pulses == p.pulses
  {
  }

  /** A flight panel switch source runs the switch block. */
  lemma SingleInputSwitch(b: Binding, st: DeviceState, now: int, p: Pass)
    requires RouteOf(b.input, st.device) == PanelSwitch
    ensures SingleInput(b, st, now, p) == SwitchStep(b.input, b.target, b.props, st.buttons, now, p)
  {
  }

  /** Only the axis blocks write axes, and what they write lies in [-1, 1]. */
  lemma SingleInputAxes(b: Binding, st: DeviceState, now: int, p: Pass)
    ensures var q := SingleInput(b, st, now, p);
            forall n :: n in q.cmd.axes ==>
              (n in p.cmd.axes && q.cmd.axes[n] == p.cmd.axes[n]) || -1.0 <= q.cmd.axes[n] <= 1.0
  {
    var src, tgt := b.input, b.target;
    var q := SingleInput(b, st, now, p);
    match RouteOf(src, st.device)
    case X55Axis | ThrottleAxis | PanelAxis =>
      SingleInputAxis(b, st, now, p);
      AxisStepAxes(src, tgt, b.props, st.axes, p.cmd);
    case X55Button | ThrottleButton =>
      SingleInputButton(b, st, now, p);
      assert q.cmd.axes == ButtonStep(src, tgt, st.buttons, p.cmd).axes == p.cmd.axes;
    case X55Hat =>
      SingleInputHat(b, st, now, p);
      assert q.cmd.axes == HatStep(src, tgt, st.hats, p.cmd).axes == p.cmd.axes;
    case PanelSwitch =>
      SingleInputSwitch(b, st, now, p);
      SwitchStepCmd(src, tgt, b.props, st.buttons, now, p);
    case Unrouted =>
      assert q == p;
  }

  predicate AxesInRange(cmd: VJoyCommand) {
    forall n :: n in cmd.axes ==> -1.0 <= cmd.axes[n] <= 1.0
  }

  lemma BindingStepAxesInRange(b: Binding, st: DeviceState, now: int, p: Pass)
    requires AxesInRange(p.cmd)
    ensures AxesInRange(BindingStep(b, st, now, p).cmd)
  {
    if b.input != "" && |b.inputs| == 0 && b.target != "" {
      SingleInputAxes(b, st, now, p);
    }
  }

  lemma {:induction false} FirstPassAxesInRange(bs: seq<Binding>, st: DeviceState, now: int, p: Pass)
    requires AxesInRange(p.cmd)
    ensures AxesInRange(FirstPass(bs, st, now, p).cmd)
    decreases |bs|
  {
    if |bs| > 0 {
      FirstPassAxesInRange(bs[..|bs| - 1], st, now, p);
      BindingStepAxesInRange(bs[|bs| - 1], st, now, FirstPass(bs[..|bs| - 1], st, now, p));
    }
  }

  /** Every axis value a call writes lies in [-1, 1], whatever the inputs,
      `invert` and `scale`. */
  lemma MapAxesInRange(bs: seq<Binding>, st: DeviceState, now: int, prev: map<string, bool>, pulses: map<int, int>)
    ensures var r := MapCall(bs, st, now, prev, pulses).result;
            r.Ok? ==> AxesInRange(r.value)
  {
    FirstPassAxesInRange(bs, st, now, Pass(prev, pulses, EmptyCommand));
  }

  // ---------------------------------------------------------------------
  // Toggle mode and pulses

  /** A single-input binding from a flight panel switch to `button:<btn>`. */
  predicate SwitchToButton(b: Binding, idx: int, btn: int) {
    b.input != "" && |b.inputs| == 0 && b.target != "" &&
    IsSwitchSource(b.input) && SourceIndex(b.input) == Some(idx) &&
    StartsWith(b.target, "button:") && ParseInt(b.target[7..]) == Some(btn)
  }

  lemma PanelSwitchRoute(src: string, dev: string)
    requires IsSwitchSource(src) && dev == "flightpanel"
    ensures RouteOf(src, dev) == PanelSwitch
  {
    assert dev != "x55";
  }

  /** On a flight panel event a switch-to-button binding runs the cache
      update of its switch and button. */
  lemma SwitchBindingStep(b: Binding, st: DeviceState, now: int, p: Pass, idx: int, btn: int)
    requires SwitchToButton(b, idx, btn) && st.device == "flightpanel"
    ensures BindingStep(b, st, now, p) == CacheSwitch(SwitchKey(idx), Lookup(st.buttons, idx, false), btn, b.props, now, p)
  {
    PanelSwitchRoute(b.input, st.device);
    SingleInputSwitch(b, st, now, p);
    assert BindingStep(b, st, now, p) == SwitchStep(b.input, b.target, b.props, st.buttons, now, p);
  }

  /** A toggle binding caches the switch's new value and arms
      `now + pulse_ms` for its button exactly when a cached value exists,
      differs from the new one and the trigger accepts the change; the
      first observation of a switch never pulses. */
  lemma ToggleCache(key: string, v: bool, btn: int, props: Props, now: int, p: Pass)
    requires ModeOf(props) == "toggle"
    ensures var q := CacheSwitch(key, v, btn, props, now, p);
            var t := TriggerOf(props);
            var edge := key in p.prev && p.prev[key] != v &&
                        (t == "on_change" || (t == "on_press" && v) || (t == "on_release" && !v));
            q.prev == p.prev[key := v] && q.cmd == p.cmd &&
            q.pulses == (if edge then p.pulses[btn := now + PulseMsOf(props)] else p.pulses)
  {
    var prevSt := if key in p.prev then Some(p.prev[key]) else None;
    assert TogglePulses(prevSt, v, TriggerOf(props)) <==>
           key in p.prev && p.prev[key] != v &&
           (TriggerOf(props) == "on_change" || (TriggerOf(props) == "on_press" && v) || (TriggerOf(props) == "on_release" && !v));
  }

  /** A binding that may arm a pulse for button `btn` in the first pass. */
  ghost predicate TogglesButton(b: Binding, btn: int) {
    exists idx :: SwitchToButton(b, idx, btn) && ModeOf(b.props) == "toggle"
  }

  lemma BindingStepPulses(b: Binding, st: DeviceState, now: int, p: Pass, k: int)
    ensures var q := BindingStep(b, st, now, p);
            (k in q.pulses && (k !in p.pulses || q.pulses[k] != p.pulses[k])) ==>
              TogglesButton(b, k) && q.pulses[k] == now + PulseMsOf(b.props)
    ensures var q := BindingStep(b, st, now, p);
            k in p.pulses ==> k in q.pulses
  {
    if b.input != "" && |b.inputs| == 0 && b.target != "" && RouteOf(b.input, st.device) == PanelSwitch {
      SwitchBindingPulses(b, st, now, p, k);
    } else {
      BindingStepKeepsPulses(b, st, now, p);
    }
  }

  /** Only the switch block touches the timers. */
  lemma BindingStepKeepsPulses(b: Binding, st: DeviceState, now: int, p: Pass)
    requires !(b.input != "" && |b.inputs| == 0 && b.target != "" && RouteOf(b.input, st.device) == PanelSwitch)
    ensures BindingStep(b, st, now, p).pulses == p.pulses
  {
    if b.input != "" && |b.inputs| == 0 && b.target != "" {
      SingleInputKeepsCache(b, st, now, p);
    }
  }

  lemma SwitchBindingPulses(b: Binding, st: DeviceState, now: int, p: Pass, k: int)
    requires b.input != "" && |b.inputs| == 0 && b.target != "" && RouteOf(b.input, st.device) == PanelSwitch
    ensures var q := BindingStep(b, st, now, p);
            (k in q.pulses && (k !in p.pulses || q.pulses[k] != p.pulses[k])) ==>
              TogglesButton(b, k) && q.pulses[k] == now + PulseMsOf(b.props)
    ensures var q := BindingStep(b, st, now, p);
            k in p.pulses ==> k in q.pulses
  {
    BindingStepSingle(b, st, now, p);
    SingleInputSwitch(b, st, now, p);
    SwitchRouteSource(b.input, st.device);
    var q := SwitchStep(b.input, b.target, b.props, st.buttons, now, p);
    SwitchStepPulses(b.input, b.target, b.props, st.buttons, now, p, k);
    if k in q.pulses && (k !in p.pulses || q.pulses[k] != p.pulses[k]) {
      assert SwitchToButton(b, SourceIndex(b.input).value, k);
    }
  }

  lemma SwitchRouteSource(src: string, dev: string)
    requires RouteOf(src, dev) == PanelSwitch
    ensures IsSwitchSource(src)
  {
  }

  /** A switch step arms only the button its target names, in toggle mode. */
  lemma SwitchStepPulses(src: string, tgt: string, props: Props, buttons: map<int, bool>, now: int, p: Pass, k: int)
    ensures var q := SwitchStep(src, tgt, props, buttons, now, p);
            (k in q.pulses && (k !in p.pulses || q.pulses[k] != p.pulses[k])) ==>
              SourceIndex(src).Some? && StartsWith(tgt, "button:") && ParseInt(tgt[7..]) == Some(k) &&
              ModeOf(props) == "toggle" && q.pulses[k] == now + PulseMsOf(props)
    ensures k in p.pulses ==> k in SwitchStep(src, tgt, props, buttons, now, p).pulses
  {
    match SourceIndex(src)
    case None =>
    case Some(idx) =>
      if StartsWith(tgt, "button:") {
        match ParseInt(tgt[7..])
        case None =>
        case Some(btn) =>
          CacheSwitchPulses(SwitchKey(idx), Lookup(buttons, idx, false), btn, props, now, p, k);
      }
  }

  /** The cache update arms at most its own button, in toggle mode only, and
      removes no timer. */
  lemma CacheSwitchPulses(key: string, v: bool, btn: int, props: Props, now: int, p: Pass, k: int)
    ensures var q := CacheSwitch(key, v, btn, props, now, p);
            (k in q.pulses && (k !in p.pulses || q.pulses[k] != p.pulses[k])) ==>
              k == btn && ModeOf(props) == "toggle" && q.pulses[k] == now + PulseMsOf(props)
    ensures k in p.pulses ==> k in CacheSwitch(key, v, btn, props, now, p).pulses
  {
  }

  /** Where the timers after the first pass come from: an entry is either
      untouched, or was armed in this pass by a toggle binding for that button
      at `now + pulse_ms` of that binding. */
  lemma FirstPassPulseOrigin(bs: seq<Binding>, st: DeviceState, now: int, p: Pass, k: int)
    ensures var q := FirstPass(bs, st, now, p);
            k in q.pulses ==>
              (k in p.pulses && q.pulses[k] == p.pulses[k]) ||
              (exists j :: 0 <= j < |bs| && TogglesButton(bs[j], k) && q.pulses[k] == now + PulseMsOf(bs[j].props))
  {
    var j := PulseArmer(bs, st, now, p, k);
    var q := FirstPass(bs, st, now, p);
    if k in q.pulses && !(k in p.pulses && q.pulses[k] == p.pulses[k]) {
      assert TogglesButton(bs[j], k) && q.pulses[k] == now + PulseMsOf(bs[j].props);
    }
  }

  /** The binding that armed a changed timer, found by induction on the
      list. */
  lemma {:induction false} PulseArmer(bs: seq<Binding>, st: DeviceState, now: int, p: Pass, k: int) returns (j: int)
    ensures var q := FirstPass(bs, st, now, p);
            k in q.pulses && !(k in p.pulses && q.pulses[k] == p.pulses[k]) ==>
              0 <= j < |bs| && TogglesButton(bs[j], k) && q.pulses[k] == now + PulseMsOf(bs[j].props)
    decreases |bs|
  {
    j := 0;
    if |bs| > 0 {
      var n := |bs| - 1;
      var front := bs[..n];
      var i := PulseArmer(front, st, now, p, k);
      var mid := FirstPass(front, st, now, p);
      BindingStepPulses(bs[n], st, now, mid, k);
      var q := FirstPass(bs, st, now, p);
      if k in mid.pulses && q.pulses[k] == mid.pulses[k] {
        j := i;
        if k in q.pulses && !(k in p.pulses && q.pulses[k] == p.pulses[k]) {
          assert bs[j] == front[i];
        }
      } else {
        j := n;
      }
    }
  }

  /** A timer no binding of the list toggles survives the first pass
      unchanged. */
  lemma {:induction false} FirstPassPulseKept(bs: seq<Binding>, st: DeviceState, now: int, p: Pass, k: int)
    requires k in p.pulses && forall j :: 0 <= j < |bs| ==> !TogglesButton(bs[j], k)
    ensures var q := FirstPass(bs, st, now, p);
            k in q.pulses && q.pulses[k] == p.pulses[k]
    decreases |bs|
  {
    if |bs| > 0 {
      var n := |bs| - 1;
      var front := bs[..n];
      assert forall j :: 0 <= j < |front| ==> front[j] == bs[j];
      FirstPassPulseKept(front, st, now, p, k);
      var mid := FirstPass(front, st, now, p);
      BindingStepPulses(bs[n], st, now, mid, k);
      assert !TogglesButton(bs[n], k);
    }
  }

  /** After a call every timer left is live (`now < expiry`): an expired
      entry is deleted and never applied again. Each left-over timer is an
      older live one left exactly as it was, or one a toggle binding armed in
      this call at `now + pulse_ms`; an older live timer that no toggle
      binding of the list can re-arm is kept unchanged. */
  lemma PulsesAfterCall(bs: seq<Binding>, st: DeviceState, now: int, prev: map<string, bool>, pulses: map<int, int>, k: int)
    ensures var out := MapCall(bs, st, now, prev, pulses).pulses;
            k in out ==>
              now < out[k] &&
              ((k in pulses && out[k] == pulses[k]) ||
               (exists j :: 0 <= j < |bs| && TogglesButton(bs[j], k) && out[k] == now + PulseMsOf(bs[j].props)))
    ensures var out := MapCall(bs, st, now, prev, pulses).pulses;
            k in pulses && now < pulses[k] && (forall j :: 0 <= j < |bs| ==> !TogglesButton(bs[j], k)) ==>
              k in out && out[k] == pulses[k]
  {
    FirstPassPulseOrigin(bs, st, now, Pass(prev, pulses, EmptyCommand), k);
    if k in pulses && now < pulses[k] && (forall j :: 0 <= j < |bs| ==> !TogglesButton(bs[j], k)) {
      FirstPassPulseKept(bs, st, now, Pass(prev, pulses, EmptyCommand), k);
    }
  }

  /** The first pass over a list is the pass over its first `from`
      bindings followed by the pass over the rest. */
  lemma {:induction false} FirstPassSplit(bs: seq<Binding>, st: DeviceState, now: int, p: Pass, from: nat)
    requires from <= |bs|
    ensures FirstPass(bs, st, now, p) == FirstPass(bs[from..], st, now, FirstPass(bs[..from], st, now, p))
    decreases |bs|
  {
    if from == |bs| {
      assert bs[..from] == bs && bs[from..] == [];
    } else {
      var n := |bs| - 1;
      var front := bs[..n];
      FirstPassSplit(front, st, now, p, from);
      var rest := bs[from..];
      assert front[..from] == bs[..from];
      assert rest[..|rest| - 1] == front[from..] && rest[|rest| - 1] == bs[n];
    }
  }

  /** The toggle edge of binding `j`: its switch is cached, with a value
      other than the event's, and the trigger accepts the change. */
  predicate ToggleEdge(b: Binding, st: DeviceState, before: map<string, bool>, idx: int) {
    var key, v, t := SwitchKey(idx), Lookup(st.buttons, idx, false), TriggerOf(b.props);
    key in before && before[key] != v &&
    (t == "on_change" || (t == "on_press" && v) || (t == "on_release" && !v))
  }

  /** A toggle binding that sees an edge arms `now + pulse_ms` for its
      button as its own step of the first pass. */
  lemma ToggleArmsInPass(bs: seq<Binding>, st: DeviceState, now: int, p: Pass, j: nat, idx: int, k: int)
    requires j < |bs| && SwitchToButton(bs[j], idx, k) && ModeOf(bs[j].props) == "toggle"
    requires st.device == "flightpanel" && ToggleEdge(bs[j], st, FirstPass(bs[..j], st, now, p).prev, idx)
    ensures var q := FirstPass(bs[..j + 1], st, now, p);
            k in q.pulses && q.pulses[k] == now + PulseMsOf(bs[j].props)
  {
    var mid := FirstPass(bs[..j], st, now, p);
    var upTo := bs[..j + 1];
    assert upTo[..j] == bs[..j] && upTo[j] == bs[j];
    SwitchBindingStep(bs[j], st, now, mid, idx, k);
    ToggleCache(SwitchKey(idx), Lookup(st.buttons, idx, false), k, bs[j].props, now, mid);
  }

  /** A timer set after `bs[..from]` that no later binding can re-arm is the
      same after the whole first pass. */
  lemma PulseKeptAfter(bs: seq<Binding>, st: DeviceState, now: int, p: Pass, from: nat, k: int)
    requires from <= |bs| && k in FirstPass(bs[..from], st, now, p).pulses
    requires forall i :: from <= i < |bs| ==> !TogglesButton(bs[i], k)
    ensures var mid, q := FirstPass(bs[..from], st, now, p), FirstPass(bs, st, now, p);
            k in q.pulses && q.pulses[k] == mid.pulses[k]
  {
    var rest := bs[from..];
    assert forall i :: 0 <= i < |rest| ==> rest[i] == bs[from + i];
    FirstPassSplit(bs, st, now, p, from);
    FirstPassPulseKept(rest, st, now, FirstPass(bs[..from], st, now, p), k);
  }

  /** The forward direction of toggle mode over a whole call: on a flight
      panel event, a toggle binding of switch `idx` to button `k` whose cached
      value (as the bindings before it left the cache) exists, differs from
      the event's value and passes the trigger arms `now + pulse_ms` for `k`;
      when no later binding re-arms `k` and `pulse_ms` is positive, the timer
      outlives the call, and unless a direct binding writes `k` the returned
      command has button `k` pressed. */
  lemma ToggleArmsAfterCall(bs: seq<Binding>, st: DeviceState, now: int, prev: map<string, bool>, pulses: map<int, int>,
                            j: nat, idx: int, k: int)
    requires j < |bs| && SwitchToButton(bs[j], idx, k) && ModeOf(bs[j].props) == "toggle"
    requires st.device == "flightpanel"
    requires ToggleEdge(bs[j], st, FirstPass(bs[..j], st, now, Pass(prev, pulses, EmptyCommand)).prev, idx)
    requires forall i :: j < i < |bs| ==> !TogglesButton(bs[i], k)
    requires PulseMsOf(bs[j].props) > 0
    ensures var o := MapCall(bs, st, now, prev, pulses);
            k in o.pulses && o.pulses[k] == now + PulseMsOf(bs[j].props)
    ensures var o := MapCall(bs, st, now, prev, pulses);
            (forall i :: 0 <= i < |bs| ==> !WritesDirect(bs[i], k)) && o.result.Ok? ==>
              k in o.result.value.buttons && o.result.value.buttons[k]
  {
    var p0 := Pass(prev, pulses, EmptyCommand);
    ToggleArmsInPass(bs, st, now, p0, j, idx, k);
    PulseKeptAfter(bs, st, now, p0, j + 1, k);
    if forall i :: 0 <= i < |bs| ==> !WritesDirect(bs[i], k) {
      PulseForcesButton(bs, st, now, prev, pulses, k);
    }
  }

  // ---------------------------------------------------------------------
  // The second pass: direct persistence and multi-input AND

  /** A second-pass binding that writes button `k`. */
  predicate WritesDirect(b: Binding, k: int) {
    IsDirectButton(b) && ParseInt(b.target[7..]) == Some(k)
  }

  lemma DirectStepOthers(b: Binding, prev: map<string, bool>, buttons: map<int, bool>, k: int)
    requires !WritesDirect(b, k) && DirectStep(b, prev, buttons).Ok?
    ensures var out := DirectStep(b, prev, buttons).value;
            (k in out <==> k in buttons) && (k in buttons ==> out[k] == buttons[k])
  {
  }

  /** Buttons that no direct-mode binding of the suffix `bs[from..]` writes
      keep the value they had after `bs[..from]`. */
  lemma {:induction false} SecondPassUnwritten(bs: seq<Binding>, prev: map<string, bool>, buttons: map<int, bool>, from: nat, k: int)
    requires from <= |bs| && SecondPass(bs, prev, buttons).Ok?
    requires forall i :: from <= i < |bs| ==> !WritesDirect(bs[i], k)
    ensures SecondPass(bs[..from], prev, buttons).Ok?
    ensures var mid, out := SecondPass(bs[..from], prev, buttons).value, SecondPass(bs, prev, buttons).value;
            (k in out <==> k in mid) && (k in mid ==> out[k] == mid[k])
    decreases |bs| - from
  {
    if from == |bs| {
      assert bs[..from] == bs;
    } else {
      var n := |bs| - 1;
      var front := bs[..n];
      assert SecondPass(front, prev, buttons).Ok?;
      assert front[..from] == bs[..from];
      SecondPassUnwritten(front, prev, buttons, from, k);
      DirectStepOthers(bs[n], prev, SecondPass(front, prev, buttons).value, k);
    }
  }

  /** A live timer holds its button on in the returned command unless a
      direct-mode binding writes that button in the second pass. */
  lemma PulseForcesButton(bs: seq<Binding>, st: DeviceState, now: int, prev: map<string, bool>, pulses: map<int, int>, k: int)
    requires forall i :: 0 <= i < |bs| ==> !WritesDirect(bs[i], k)
    ensures var o := MapCall(bs, st, now, prev, pulses);
            k in o.pulses && o.result.Ok? ==> k in o.result.value.buttons && o.result.value.buttons[k]
  {
    var p := FirstPass(bs, st, now, Pass(prev, pulses, EmptyCommand));
    var forced := ForcePulses(p.cmd.buttons, p.pulses, now);
    if SecondPass(bs, p.prev, forced).Ok? {
      SecondPassUnwritten(bs, p.prev, forced, 0, k);
      assert bs[..0] == [];
    }
  }

  /** A direct single-switch binding for button `k` that no later direct
      binding overrides leaves the cached switch value on `k`, whatever a
      live timer or an earlier binding put there; so a direct binding
      overrides a pulse on the same id. */
  lemma {:induction false} DirectSwitchLastWriter(bs: seq<Binding>, prev: map<string, bool>, buttons: map<int, bool>, j: nat, idx: int, k: int)
    requires j < |bs| && SwitchToButton(bs[j], idx, k) && ModeOf(bs[j].props) == "direct"
    requires SwitchKey(idx) in prev
    requires forall i :: j < i < |bs| ==> !WritesDirect(bs[i], k)
    requires SecondPass(bs, prev, buttons).Ok?
    ensures var out := SecondPass(bs, prev, buttons).value;
            k in out && out[k] == prev[SwitchKey(idx)]
  {
    SecondPassUnwritten(bs, prev, buttons, j + 1, k);
    SecondPassPrefix(bs, prev, buttons, j);
    DirectSwitchStep(bs[j], prev, SecondPass(bs[..j], prev, buttons).value, idx, k);
  }

  /** The second pass over `bs[..j + 1]` is the pass over `bs[..j]`
      followed by binding j. */
  lemma SecondPassPrefix(bs: seq<Binding>, prev: map<string, bool>, buttons: map<int, bool>, j: nat)
    requires j < |bs|
    ensures SecondPass(bs[..j + 1], prev, buttons) ==
              match SecondPass(bs[..j], prev, buttons)
              case Raised => Raised
              case Ok(bt) => DirectStep(bs[j], prev, bt)
  {
    var front := bs[..j + 1];
    assert front[..j] == bs[..j] && front[j] == bs[j];
  }

  /** In the second pass a direct single-switch binding writes the cached
      switch value on its button, and nothing when the switch was never
      cached. */
  lemma DirectSwitchStep(b: Binding, prev: map<string, bool>, buttons: map<int, bool>, idx: int, k: int)
    requires SwitchToButton(b, idx, k) && ModeOf(b.props) == "direct"
    ensures DirectStep(b, prev, buttons) ==
              Ok(if SwitchKey(idx) in prev then buttons[k := prev[SwitchKey(idx)]] else buttons)
  {
  }

  /** Cross-device persistence: on any call, whichever device it is for, the
      last direct single-switch binding of button `k` re-asserts the switch
      value cached after the call's first pass, even over a live pulse. */
  lemma DirectSwitchReasserted(bs: seq<Binding>, st: DeviceState, now: int, prev: map<string, bool>, pulses: map<int, int>, j: nat, idx: int, k: int)
    requires j < |bs| && SwitchToButton(bs[j], idx, k) && ModeOf(bs[j].props) == "direct"
    requires forall i :: j < i < |bs| ==> !WritesDirect(bs[i], k)
    ensures var o := MapCall(bs, st, now, prev, pulses);
            o.result.Ok? && SwitchKey(idx) in o.prev ==>
              k in o.result.value.buttons && o.result.value.buttons[k] == o.prev[SwitchKey(idx)]
  {
    var p := FirstPass(bs, st, now, Pass(prev, pulses, EmptyCommand));
    var forced := ForcePulses(p.cmd.buttons, p.pulses, now);
    if SecondPass(bs, p.prev, forced).Ok? && SwitchKey(idx) in p.prev {
      DirectSwitchLastWriter(bs, p.prev, forced, j, idx, k);
    }
  }

  /** The unseen half of persistence: when the switch of the last direct
      binding of button `k` has never been cached, that binding writes
      nothing, so `k` keeps what the bindings before it left (a pulse forced
      on, or an earlier writer's value); with no other direct writer of `k`,
      that is the first pass's value with live pulses forced on. */
  lemma DirectSwitchUnseen(bs: seq<Binding>, st: DeviceState, now: int, prev: map<string, bool>, pulses: map<int, int>, j: nat, idx: int, k: int)
    requires j < |bs| && SwitchToButton(bs[j], idx, k) && ModeOf(bs[j].props) == "direct"
    requires forall i :: j < i < |bs| ==> !WritesDirect(bs[i], k)
    ensures var o := MapCall(bs, st, now, prev, pulses);
            var p := FirstPass(bs, st, now, Pass(prev, pulses, EmptyCommand));
            var forced := ForcePulses(p.cmd.buttons, p.pulses, now);
            o.result.Ok? && SwitchKey(idx) !in o.prev ==>
              SecondPass(bs[..j], o.prev, forced).Ok? &&
              var before := SecondPass(bs[..j], o.prev, forced).value;
              (k in o.result.value.buttons <==> k in before) &&
              (k in before ==> o.result.value.buttons[k] == before[k])
    ensures var o := MapCall(bs, st, now, prev, pulses);
            var p := FirstPass(bs, st, now, Pass(prev, pulses, EmptyCommand));
            var forced := ForcePulses(p.cmd.buttons, p.pulses, now);
            o.result.Ok? && SwitchKey(idx) !in o.prev && (forall i :: 0 <= i < j ==> !WritesDirect(bs[i], k)) ==>
              (k in o.result.value.buttons <==> k in forced) &&
              (k in forced ==> o.result.value.buttons[k] == forced[k])
  {
    var p := FirstPass(bs, st, now, Pass(prev, pulses, EmptyCommand));
    var forced := ForcePulses(p.cmd.buttons, p.pulses, now);
    if SecondPass(bs, p.prev, forced).Ok? && SwitchKey(idx) !in p.prev {
      SecondPassUnwritten(bs, p.prev, forced, j + 1, k);
      SecondPassPrefix(bs, p.prev, forced, j);
      var before := SecondPass(bs[..j], p.prev, forced).value;
      DirectSwitchStep(bs[j], p.prev, before, idx, k);
      if forall i :: 0 <= i < j ==> !WritesDirect(bs[i], k) {
        UnwrittenPrefixKeeps(bs[..j], p.prev, forced, k);
      }
    }
  }

  /** A prefix with no direct writer of `k` leaves `k` as it found it. */
  lemma UnwrittenPrefixKeeps(front: seq<Binding>, prev: map<string, bool>, buttons: map<int, bool>, k: int)
    requires SecondPass(front, prev, buttons).Ok?
    requires forall i :: 0 <= i < |front| ==> !WritesDirect(front[i], k)
    ensures var out := SecondPass(front, prev, buttons).value;
            (k in out <==> k in buttons) && (k in buttons ==> out[k] == buttons[k])
  {
    SecondPassUnwritten(front, prev, buttons, 0, k);
    assert front[..0] == [];
  }

  /** Every `flightpanel.switch` entry of a multi-input list has an index and
      is cached as true; other entries do not count. */
  predicate AllSeenOn(items: seq<string>, prev: map<string, bool>) {
    forall i :: 0 <= i < |items| ==> SeenOn(items[i], prev)
  }

  /** One entry of the AND: a non-switch entry, or a switch with an index
      that is cached as true. */
  predicate SeenOn(item: string, prev: map<string, bool>) {
    IsSwitchSource(item) ==>
      SourceIndex(item).Some? && SwitchKey(SourceIndex(item).value) in prev && prev[SwitchKey(SourceIndex(item).value)]
  }

  predicate SwitchEntriesParse(items: seq<string>) {
    forall i :: 0 <= i < |items| ==> Parses(items[i])
  }

  predicate Parses(item: string) {
    IsSwitchSource(item) ==> SourceIndex(item).Some?
  }

  lemma SplitSeenOn(items: seq<string>, prev: map<string, bool>)
    requires |items| > 0
    ensures AllSeenOn(items, prev) <==> SeenOn(items[0], prev) && AllSeenOn(items[1..], prev)
  {
    var rest := items[1..];
    if SeenOn(items[0], prev) && AllSeenOn(rest, prev) {
      forall i | 0 <= i < |items| ensures SeenOn(items[i], prev) {
        if i > 0 {
          assert items[i] == rest[i - 1];
        }
      }
    }
    if AllSeenOn(items, prev) {
      forall i | 0 <= i < |rest| ensures SeenOn(rest[i], prev) {
        assert rest[i] == items[i + 1];
      }
    }
  }

  lemma SplitParses(items: seq<string>)
    requires |items| > 0
    ensures SwitchEntriesParse(items) <==> Parses(items[0]) && SwitchEntriesParse(items[1..])
  {
    var rest := items[1..];
    if Parses(items[0]) && SwitchEntriesParse(rest) {
      forall i | 0 <= i < |items| ensures Parses(items[i]) {
        if i > 0 {
          assert items[i] == rest[i - 1];
        }
      }
    }
    if SwitchEntriesParse(items) {
      forall i | 0 <= i < |rest| ensures Parses(rest[i]) {
        assert rest[i] == items[i + 1];
      }
    }
  }

  /** Multi-input AND: true exactly when every switch entry has been seen and
      is on (an unseen switch counts as off, a non-switch entry is ignored);
      when every switch entry has an integer index the loop never raises. */
  lemma {:induction false} AllSwitchesOnMeaning(items: seq<string>, prev: map<string, bool>)
    ensures AllSwitchesOn(items, prev) == Ok(true) <==> AllSeenOn(items, prev)
    ensures SwitchEntriesParse(items) ==> AllSwitchesOn(items, prev) == Ok(AllSeenOn(items, prev))
    decreases |items|
  {
    if |items| > 0 {
      AllSwitchesOnMeaning(items[1..], prev);
      SplitSeenOn(items, prev);
      SplitParses(items);
    }
  }

  /** A multi-input direct binding for button `k` that no later direct
      binding overrides leaves the AND of its switches on `k`. */
  lemma MultiInputAnd(bs: seq<Binding>, prev: map<string, bool>, buttons: map<int, bool>, j: nat, k: int)
    requires j < |bs| && WritesDirect(bs[j], k) && |bs[j].inputs| > 0 && SwitchEntriesParse(bs[j].inputs)
    requires forall i :: j < i < |bs| ==> !WritesDirect(bs[i], k)
    requires SecondPass(bs, prev, buttons).Ok?
    ensures var out := SecondPass(bs, prev, buttons).value;
            k in out && (out[k] <==> AllSeenOn(bs[j].inputs, prev))
  {
    AllSwitchesOnMeaning(bs[j].inputs, prev);
    SecondPassUnwritten(bs, prev, buttons, j + 1, k);
    SecondPassPrefix(bs, prev, buttons, j);
  }

  /** A direct-mode `button:` binding whose id is not an integer makes every
      call raise (the second pass has no `try`), while the dictionaries are
      still updated as on a normal call. */
  lemma DirectBadTargetRaises(bs: seq<Binding>, st: DeviceState, now: int, prev: map<string, bool>, pulses: map<int, int>, j: nat)
    requires j < |bs| && IsDirectButton(bs[j]) && ParseInt(bs[j].target[7..]).None?
    ensures var o := MapCall(bs, st, now, prev, pulses);
            var p := FirstPass(bs, st, now, Pass(prev, pulses, EmptyCommand));
            o.result == Raised && o.prev == p.prev && o.pulses == LivePulses(p.pulses, now)
  {
    var p := FirstPass(bs, st, now, Pass(prev, pulses, EmptyCommand));
    var forced := ForcePulses(p.cmd.buttons, p.pulses, now);
    SecondPassPrefix(bs, p.prev, forced, j);
    assert SecondPass(bs[..j + 1], p.prev, forced) == Raised;
    SecondPassRaisedPersists(bs, p.prev, forced, j + 1);
  }

  /** Once a binding of the second pass raises, the whole pass has raised. */
  lemma {:induction false} SecondPassRaisedPersists(bs: seq<Binding>, prev: map<string, bool>, buttons: map<int, bool>, k: nat)
    requires k <= |bs| && SecondPass(bs[..k], prev, buttons) == Raised
    ensures SecondPass(bs, prev, buttons) == Raised
    decreases |bs| - k
  {
    if k < |bs| {
      assert bs[..k + 1][..k] == bs[..k];
      SecondPassRaisedPersists(bs, prev, buttons, k + 1);
    } else {
      assert bs[..k] == bs;
    }
  }

  // ---------------------------------------------------------------------
  // The switch cache

  /** In the first pass a binding whose source index does not parse, or a
      single input without a target, has no effect: its `try` swallows the
      exception or the binding is skipped. */
  lemma SkippedBinding(b: Binding, st: DeviceState, now: int, p: Pass)
    requires b.input != "" && |b.inputs| == 0
    requires b.target == "" || SourceIndex(b.input).None?
    ensures BindingStep(b, st, now, p) == p
  {
    if b.target != "" {
      match RouteOf(b.input, st.device)
      case X55Axis | ThrottleAxis | PanelAxis =>
      case X55Button | ThrottleButton =>
      case X55Hat =>
      case PanelSwitch =>
      case Unrouted =>
    }
  }

  /** A single-input binding acts only on events of its own device: when the
      source does not start with the event's device name and a dot, the
      binding changes nothing. */
  lemma ForeignDeviceIgnored(b: Binding, st: DeviceState, now: int, p: Pass)
    requires b.input != "" && |b.inputs| == 0
    requires !StartsWith(b.input, st.device + ".")
    ensures BindingStep(b, st, now, p) == p
  {
    RoutedHasDevicePrefix(b.input, st.device);
    if b.target != "" {
      BindingStepSingle(b, st, now, p);
    }
  }

  /** Every block a source can enter names the event's device before the
      dot. */
  lemma RoutedHasDevicePrefix(src: string, dev: string)
    ensures RouteOf(src, dev) != Unrouted ==> StartsWith(src, dev + ".")
  {
    if dev == "x55" {
      assert dev + "." == "x55.";
      if StartsWith(src, "x55.axes") {
        PrefixOfPrefix("x55.", "x55.axes", src);
      } else if StartsWith(src, "x55.button") {
        PrefixOfPrefix("x55.", "x55.button", src);
      } else if StartsWith(src, "x55.hat") {
        PrefixOfPrefix("x55.", "x55.hat", src);
      }
    } else if dev == "flightpanel" {
      assert dev + "." == "flightpanel.";
      if IsSwitchSource(src) {
        PrefixOfPrefix("flightpanel.", "flightpanel.switch", src);
      } else if StartsWith(src, "flightpanel.axis") {
        PrefixOfPrefix("flightpanel.", "flightpanel.axis", src);
      }
    } else if dev == "ch_throttle" {
      assert dev + "." == "ch_throttle.";
      if StartsWith(src, "ch_throttle.axes") {
        PrefixOfPrefix("ch_throttle.", "ch_throttle.axes", src);
      } else if StartsWith(src, "ch_throttle.button") {
        PrefixOfPrefix("ch_throttle.", "ch_throttle.button", src);
      }
    }
  }

  lemma PrefixOfPrefix(a: string, b: string, s: string)
    requires a <= b && b <= s
    ensures a <= s
  {
    assert s[..|a|] == b[..|a|];
  }

  /** An `x55.button` or `ch_throttle.button` binding on its device copies
      the source button (absent reads as false) to `button:<btn>` and
      nothing else, whatever its `mode`. */
  lemma ButtonBindingCopies(b: Binding, st: DeviceState, now: int, p: Pass, idx: int, btn: int)
    requires b.input != "" && |b.inputs| == 0
    requires (StartsWith(b.input, "x55.button") && st.device == "x55") ||
             (StartsWith(b.input, "ch_throttle.button") && st.device == "ch_throttle")
    requires SourceIndex(b.input) == Some(idx)
    requires StartsWith(b.target, "button:") && ParseInt(b.target[7..]) == Some(btn)
    ensures BindingStep(b, st, now, p) ==
              p.(cmd := p.cmd.(buttons := p.cmd.buttons[btn := Lookup(st.buttons, idx, false)]))
  {
    assert b.target != "" by { assert |b.target| >= 7; }
    BindingStepSingle(b, st, now, p);
    ButtonRoute(b.input, st.device);
    SingleInputButton(b, st, now, p);
    ButtonStepWrites(b.input, b.target, st.buttons, p.cmd, idx, btn);
  }

  lemma SingleInputButton(b: Binding, st: DeviceState, now: int, p: Pass)
    requires RouteOf(b.input, st.device) == X55Button || RouteOf(b.input, st.device) == ThrottleButton
    ensures SingleInput(b, st, now, p) == p.(cmd := ButtonStep(b.input, b.target, st.buttons, p.cmd))
  {
  }

  lemma ButtonStepWrites(src: string, tgt: string, buttons: map<int, bool>, cmd: VJoyCommand, idx: int, btn: int)
    requires SourceIndex(src) == Some(idx)
    requires StartsWith(tgt, "button:") && ParseInt(tgt[7..]) == Some(btn)
    ensures ButtonStep(src, tgt, buttons, cmd) == cmd.(buttons := cmd.buttons[btn := Lookup(buttons, idx, false)])
  {
  }

  lemma ButtonRoute(src: string, dev: string)
    requires (StartsWith(src, "x55.button") && dev == "x55") ||
             (StartsWith(src, "ch_throttle.button") && dev == "ch_throttle")
    ensures RouteOf(src, dev) == X55Button || RouteOf(src, dev) == ThrottleButton
  {
    if dev == "x55" {
      assert src[4] == 'b';
    } else {
      assert src[12] == 'b';
    }
  }

  /** An axis binding on its device writes the inverted, scaled and clamped
      source value (an absent axis reads as 0.0) under the name after
      `axis:`. */
  lemma AxisBindingWrites(b: Binding, st: DeviceState, now: int, p: Pass, idx: int)
    requires b.input != "" && |b.inputs| == 0
    requires (StartsWith(b.input, "x55.axes") && st.device == "x55") ||
             (StartsWith(b.input, "ch_throttle.axes") && st.device == "ch_throttle") ||
             (StartsWith(b.input, "flightpanel.axis") && st.device == "flightpanel")
    requires SourceIndex(b.input) == Some(idx)
    requires StartsWith(b.target, "axis:")
    ensures BindingStep(b, st, now, p) ==
              p.(cmd := p.cmd.(axes := p.cmd.axes[b.target[5..] := AxisValue(Lookup(st.axes, idx, 0.0), b.props)]))
  {
    assert b.target != "" by { assert |b.target| >= 5; }
    BindingStepSingle(b, st, now, p);
    AxisRoute(b.input, st.device);
    SingleInputAxis(b, st, now, p);
    AxisStepWrites(b.input, b.target, b.props, st.axes, p.cmd, idx);
  }

  lemma BindingStepSingle(b: Binding, st: DeviceState, now: int, p: Pass)
    requires b.input != "" && |b.inputs| == 0 && b.target != ""
    ensures BindingStep(b, st, now, p) == SingleInput(b, st, now, p)
  {
  }

  lemma SingleInputAxis(b: Binding, st: DeviceState, now: int, p: Pass)
    requires RouteOf(b.input, st.device) == X55Axis || RouteOf(b.input, st.device) == ThrottleAxis ||
             RouteOf(b.input, st.device) == PanelAxis
    ensures SingleInput(b, st, now, p) == p.(cmd := AxisStep(b.input, b.target, b.props, st.axes, p.cmd))
  {
  }

  lemma AxisStepWrites(src: string, tgt: string, props: Props, axes: map<int, real>, cmd: VJoyCommand, idx: int)
    requires SourceIndex(src) == Some(idx) && StartsWith(tgt, "axis:")
    ensures AxisStep(src, tgt, props, axes, cmd) ==
            cmd.(axes := cmd.axes[tgt[5..] := AxisValue(Lookup(axes, idx, 0.0), props)])
  {
  }

  lemma AxisRoute(src: string, dev: string)
    requires (StartsWith(src, "x55.axes") && dev == "x55") ||
             (StartsWith(src, "ch_throttle.axes") && dev == "ch_throttle") ||
             (StartsWith(src, "flightpanel.axis") && dev == "flightpanel")
    ensures RouteOf(src, dev) == X55Axis || RouteOf(src, dev) == ThrottleAxis || RouteOf(src, dev) == PanelAxis
  {
    if dev == "flightpanel" {
      assert src[12] == 'a';
    }
  }

  /** An `x55.hat` binding on an X-55 event writes the table's degree for
      the source hat (an absent hat reads as (-1, -1)) to `pov:<pid>`. */
  lemma HatBindingWrites(b: Binding, st: DeviceState, now: int, p: Pass, idx: int, pid: int)
    requires b.input != "" && |b.inputs| == 0
    requires StartsWith(b.input, "x55.hat") && st.device == "x55"
    requires SourceIndex(b.input) == Some(idx)
    requires StartsWith(b.target, "pov:") && ParseInt(b.target[4..]) == Some(pid)
    ensures BindingStep(b, st, now, p) ==
              p.(cmd := p.cmd.(povs := p.cmd.povs[pid := HatToPov(Lookup(st.hats, idx, Hat(-1, -1)))]))
  {
    assert b.target != "" by { assert |b.target| >= 4; }
    BindingStepSingle(b, st, now, p);
    HatRoute(b.input, st.device);
    SingleInputHat(b, st, now, p);
    HatStepWrites(b.input, b.target, st.hats, p.cmd, idx, pid);
  }

  lemma HatRoute(src: string, dev: string)
    requires StartsWith(src, "x55.hat") && dev == "x55"
    ensures RouteOf(src, dev) == X55Hat
  {
    assert src[4] == 'h';
  }

  lemma SingleInputHat(b: Binding, st: DeviceState, now: int, p: Pass)
    requires RouteOf(b.input, st.device) == X55Hat
    ensures SingleInput(b, st, now, p) == p.(cmd := HatStep(b.input, b.target, st.hats, p.cmd))
  {
  }

  lemma HatStepWrites(src: string, tgt: string, hats: map<int, Hat>, cmd: VJoyCommand, idx: int, pid: int)
    requires SourceIndex(src) == Some(idx)
    requires StartsWith(tgt, "pov:") && ParseInt(tgt[4..]) == Some(pid)
    ensures HatStep(src, tgt, hats, cmd) == cmd.(povs := cmd.povs[pid := HatToPov(Lookup(hats, idx, Hat(-1, -1)))])
  {
  }

  /** Only flight panel events refresh the switch cache. */
  lemma {:induction false} NonPanelEventKeepsCache(bs: seq<Binding>, st: DeviceState, now: int, p: Pass)
    requires st.device != "flightpanel"
    ensures FirstPass(bs, st, now, p).prev == p.prev
    decreases |bs|
  {
    if |bs| > 0 {
      NonPanelEventKeepsCache(bs[..|bs| - 1], st, now, p);
      var mid := FirstPass(bs[..|bs| - 1], st, now, p);
      NonPanelBindingKeepsCache(bs[|bs| - 1], st, now, mid);
    }
  }

  lemma NonPanelBindingKeepsCache(b: Binding, st: DeviceState, now: int, p: Pass)
    requires st.device != "flightpanel"
    ensures BindingStep(b, st, now, p).prev == p.prev
  {
    if b.input != "" && |b.inputs| == 0 && b.target != "" {
      assert RouteOf(b.input, st.device) != PanelSwitch;
      SingleInputKeepsCache(b, st, now, p);
    }
  }

  lemma {:induction false} RefreshSwitchesMerge(items: seq<string>, buttons: map<int, bool>, prev: map<string, bool>)
    ensures RefreshSwitches(items, buttons, prev) == prev + RefreshSwitches(items, buttons, map[])
    decreases |items|
  {
    if |items| > 0 && IsSwitchSource(items[0]) && SourceIndex(items[0]).Some? {
      var idx := SourceIndex(items[0]).value;
      var key, v := SwitchKey(idx), Lookup(buttons, idx, false);
      var rest := RefreshSwitches(items[1..], buttons, map[]);
      assert RefreshSwitches(items, buttons, prev) == RefreshSwitches(items[1..], buttons, prev[key := v]);
      assert RefreshSwitches(items, buttons, map[]) == RefreshSwitches(items[1..], buttons, map[key := v]);
      RefreshSwitchesMerge(items[1..], buttons, prev[key := v]);
      RefreshSwitchesMerge(items[1..], buttons, map[key := v]);
      UpdateIsMerge(prev, key, v);
      MergeAssociates(prev, map[key := v], rest);
    } else if |items| > 0 && !IsSwitchSource(items[0]) {
      RefreshSwitchesMerge(items[1..], buttons, prev);
      RefreshSwitchesMerge(items[1..], buttons, map[]);
    }
  }

  /** A binding's effect on the cache is to overwrite some entries with
      values read from the snapshot; which entries and values depends on
      the binding and the snapshot only. */
  lemma CacheSwitchPrev(key: string, st: bool, btn: int, props: Props, now: int, p: Pass)
    ensures CacheSwitch(key, st, btn, props, now, p).prev == p.prev[key := st]
  {
  }

  lemma MergeAssociates<K, V>(a: map<K, V>, b: map<K, V>, c: map<K, V>)
    ensures (a + b) + c == a + (b + c)
  {
    forall k
      ensures k in (a + b) + c <==> k in a + (b + c)
      ensures k in (a + b) + c ==> ((a + b) + c)[k] == (a + (b + c))[k]
    {
    }
  }

  lemma UpdateIsMerge<K, V>(m: map<K, V>, k: K, v: V)
    ensures m[k := v] == m + map[k := v]
  {
    assert forall x :: x in m[k := v] <==> x in m + map[k := v];
  }

  lemma SwitchStepCacheMerge(src: string, tgt: string, props: Props, buttons: map<int, bool>, now: int, p: Pass)
    ensures SwitchStep(src, tgt, props, buttons, now, p).prev ==
            p.prev + SwitchStep(src, tgt, props, buttons, now, Pass(map[], map[], EmptyCommand)).prev
  {
    match SourceIndex(src)
    case None =>
    case Some(idx) =>
      if StartsWith(tgt, "button:") && ParseInt(tgt[7..]).Some? {
        var key, v, btn := SwitchKey(idx), Lookup(buttons, idx, false), ParseInt(tgt[7..]).value;
        var e := Pass(map[], map[], EmptyCommand);
        CacheSwitchPrev(key, v, btn, props, now, p);
        CacheSwitchPrev(key, v, btn, props, now, e);
        UpdateIsMerge(p.prev, key, v);
      }
  }

  lemma BindingStepCacheMerge(b: Binding, st: DeviceState, now: int, p: Pass)
    ensures BindingStep(b, st, now, p).prev ==
            p.prev + BindingStep(b, st, now, Pass(map[], map[], EmptyCommand)).prev
  {
    var e := Pass(map[], map[], EmptyCommand);
    if b.input != "" && |b.inputs| == 0 && b.target != "" {
      if RouteOf(b.input, st.device) == PanelSwitch {
        SingleInputSwitch(b, st, now, p);
        SingleInputSwitch(b, st, now, e);
        SwitchStepCacheMerge(b.input, b.target, b.props, st.buttons, now, p);
      } else {
        SingleInputKeepsCache(b, st, now, p);
        SingleInputKeepsCache(b, st, now, e);
      }
    } else if |b.inputs| > 0 && b.target != "" && st.device == "flightpanel" {
      RefreshSwitchesMerge(b.inputs, st.buttons, p.prev);
    }
  }

  /** The cache after a first pass is the cache before it, overwritten by a
      map that depends on the binding list and the snapshot alone. */
  lemma {:induction false} FirstPassCacheMerge(bs: seq<Binding>, st: DeviceState, now: int, p: Pass)
    ensures FirstPass(bs, st, now, p).prev == p.prev + FirstPass(bs, st, 0, Pass(map[], map[], EmptyCommand)).prev
    decreases |bs|
  {
    if |bs| > 0 {
      var e := Pass(map[], map[], EmptyCommand);
      var front, b := bs[..|bs| - 1], bs[|bs| - 1];
      FirstPassCacheMerge(front, st, now, p);
      FirstPassCacheMerge(front, st, 0, e);
      var mid, mid0 := FirstPass(front, st, now, p), FirstPass(front, st, 0, e);
      assert FirstPass(bs, st, now, p) == BindingStep(b, st, now, mid);
      assert FirstPass(bs, st, 0, e) == BindingStep(b, st, 0, mid0);
      BindingStepCacheMerge(b, st, now, mid);
      BindingStepCacheMerge(b, st, 0, mid0);
      CacheIgnoresClock(b, st, now, 0, e);
      assert mid0.prev == map[] + mid0.prev;
      MergeAssociates(p.prev, mid0.prev, BindingStep(b, st, 0, e).prev);
    }
  }

  /** The cache a binding leaves does not depend on the clock. */
  lemma CacheIgnoresClock(b: Binding, st: DeviceState, t1: int, t2: int, p: Pass)
    ensures BindingStep(b, st, t1, p).prev == BindingStep(b, st, t2, p).prev
  {
    if b.input != "" && |b.inputs| == 0 && b.target != "" {
      if RouteOf(b.input, st.device) == PanelSwitch {
        SingleInputSwitch(b, st, t1, p);
        SingleInputSwitch(b, st, t2, p);
      } else {
        SingleInputKeepsCache(b, st, t1, p);
        SingleInputKeepsCache(b, st, t2, p);
      }
    }
  }

  /** Feeding the same snapshot again leaves the switch cache as the first
      call left it, whatever the clock and the timers; so every direct-mode
      button, which the second pass computes from that cache, is re-asserted
      with the same value. */
  lemma RepeatedSnapshotKeepsCache(bs: seq<Binding>, st: DeviceState, t1: int, t2: int,
                                   prev: map<string, bool>, pulses1: map<int, int>, pulses2: map<int, int>)
    ensures var o1 := MapCall(bs, st, t1, prev, pulses1);
            MapCall(bs, st, t2, o1.prev, pulses2).prev == o1.prev
  {
    var e := Pass(map[], map[], EmptyCommand);
    var d := FirstPass(bs, st, 0, e).prev;
    FirstPassCacheMerge(bs, st, t1, Pass(prev, pulses1, EmptyCommand));
    var c1 := prev + d;
    FirstPassCacheMerge(bs, st, t2, Pass(c1, pulses2, EmptyCommand));
    assert c1 + d == c1;
  }
}
