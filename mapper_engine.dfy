/** `Mapper` from mapper.py: the binding list it was built with and the two
    dictionaries it updates on every call. `Map` is `map_state_to_vjoy`,
    written as the source writes it (three loops over the bindings and the
    timers, updating the dictionaries and the command in place); the helper
    methods are its sections. Each is proved to compute the functions of
    MapperSpec. */
module MapperEngine {
  import opened Wrappers
  import opened PyText
  import opened DeviceStates
  import opened MapperSpec
  import opened MapperLemmas

  class Mapper {
    /** `profile.get("bindings", [])`. */
    const bindings: seq<Binding>
    /** `_prev_state`: last value per `flightpanel.switch.N`. */
    var prev: map<string, bool>
    /** `_pulse_timers`: button id to expiry time in milliseconds. */
    var pulses: map<int, int>

    constructor(profile: seq<Binding>)
      ensures bindings == profile && prev == map[] && pulses == map[]
    {
      bindings := profile;
      prev := map[];
      pulses := map[];
    }

    /** One call of `map_state_to_vjoy` with the clock reading `now`. */
    method Map(state: DeviceState, now: int) returns (r: Result<VJoyCommand>)
      modifies this
      ensures var o := MapCall(bindings, state, now, old(prev), old(pulses));
              r == o.result && prev == o.prev && pulses == o.pulses
    {
      var cmd := EmptyCommand;
      ghost var p0 := Pass(prev, pulses, cmd);
      var i := 0;
      while i < |bindings|
        invariant 0 <= i <= |bindings|
        invariant Pass(prev, pulses, cmd) == FirstPass(bindings[..i], state, now, p0)
      {
        var b := bindings[i];
        if b.input != "" && |b.inputs| == 0 {
          if b.target != "" {
            cmd := MapSingleInput(b, state, now, cmd);
          }
        } else if |b.inputs| > 0 && b.target != "" {
          if state.device == "flightpanel" {
            RefreshFromPanel(b.inputs, state.buttons);
          }
        }
        assert bindings[..i + 1][..i] == bindings[..i];
        i := i + 1;
      }
      assert bindings[..i] == bindings;
      ghost var p1 := Pass(prev, pulses, cmd);
      cmd := ApplyPulseTimers(now, cmd);
      assert prev == p1.prev;
      r := ReassertDirect(cmd);
    }

    /** The `try` block of a single-input binding (its target is non-empty). */
    method MapSingleInput(b: Binding, state: DeviceState, now: int, cmd: VJoyCommand) returns (out: VJoyCommand)
      modifies this
      ensures Pass(prev, pulses, out) == SingleInput(b, state, now, Pass(old(prev), old(pulses), cmd))
    {
      out := cmd;
      var src, tgt := b.input, b.target;
      match RouteOf(src, state.device) {
        case X55Axis | ThrottleAxis | PanelAxis =>
          out := AxisStep(src, tgt, b.props, state.axes, out);
        case X55Button | ThrottleButton =>
          out := ButtonStep(src, tgt, state.buttons, out);
        case X55Hat =>
          out := HatStep(src, tgt, state.hats, out);
        case PanelSwitch =>
          MapSwitch(src, tgt, b.props, state.buttons, now);
        case Unrouted =>
      }
    }

    /** The `flightpanel.switch` block: toggle edge detection and caching. */
    method MapSwitch(src: string, tgt: string, props: Props, buttons: map<int, bool>, now: int)
      modifies this
      ensures var p := SwitchStep(src, tgt, props, buttons, now, Pass(old(prev), old(pulses), EmptyCommand));
              prev == p.prev && pulses == p.pulses
    {
      var idx := SourceIndex(src);
      if idx.None? { return; }
      var st := Lookup(buttons, idx.value, false);
      if StartsWith(tgt, "button:") {
        var btn := ParseInt(tgt[7..]);
        if btn.None? { return; }
        ghost var p0 := Pass(prev, pulses, EmptyCommand);
        assert SwitchStep(src, tgt, props, buttons, now, p0) ==
               CacheSwitch(SwitchKey(idx.value), st, btn.value, props, now, p0);
        CacheSwitchState(SwitchKey(idx.value), st, btn.value, props, now);
      }
    }

    /** Caches switch value `st` under `key`; in toggle mode a change the
        trigger accepts first arms button `btn` for `pulse_ms`. */
    method CacheSwitchState(key: string, st: bool, btn: int, props: Props, now: int)
      modifies this
      ensures var p := CacheSwitch(key, st, btn, props, now, Pass(old(prev), old(pulses), EmptyCommand));
              prev == p.prev && pulses == p.pulses
    {
      var mode, pulseMs, trigger := ModeOf(props), PulseMsOf(props), TriggerOf(props);
      if mode == "toggle" {
        if key in prev && prev[key] != st {
          var shouldTrigger := false;
          if trigger == "on_change" {
            shouldTrigger := true;
          } else if trigger == "on_press" && st {
            shouldTrigger := true;
          } else if trigger == "on_release" && !st {
            shouldTrigger := true;
          }
          assert shouldTrigger == TogglePulses(Some(prev[key]), st, trigger);
          if shouldTrigger {
            pulses := pulses[btn := now + pulseMs];
          }
        }
        prev := prev[key := st];
      } else {
        prev := prev[key := st];
      }
    }

    /** The multi-input block on a flight panel event: cache every switch
      entry in order, stopping where an index fails to parse. */
    method RefreshFromPanel(items: seq<string>, buttons: map<int, bool>)
      modifies this
      ensures prev == RefreshSwitches(items, buttons, old(prev)) && pulses == old(pulses)
    {
      var j := 0;
      while j < |items|
        invariant 0 <= j <= |items|
        invariant RefreshSwitches(items, buttons, old(prev)) == RefreshSwitches(items[j..], buttons, prev)
        invariant pulses == old(pulses)
      {
        var item := items[j];
        if IsSwitchSource(item) {
          var idx := SourceIndex(item);
          if idx.None? {
            break;
          }
          prev := prev[SwitchKey(idx.value) := Lookup(buttons, idx.value, false)];
        }
        assert items[j..][1..] == items[j + 1..];
        j := j + 1;
      }
    }

    /** Forces every button with a live timer on and deletes the expired
        timers, collecting them first as the source does. */
    method ApplyPulseTimers(now: int, cmd: VJoyCommand) returns (out: VJoyCommand)
      modifies this
      ensures out == cmd.(buttons := ForcePulses(cmd.buttons, old(pulses), now))
      ensures pulses == LivePulses(old(pulses), now) && prev == old(prev)
    {
      var buttons, expired := ScanTimers(now, cmd.buttons);
      out := cmd.(buttons := buttons);
      ExpiredComplement(pulses, now, expired);
      DeleteTimers(expired);
    }

    /** The loop over the timers: a live one forces its button on, an
        expired one is collected for deletion. */
    method ScanTimers(now: int, buttons0: map<int, bool>) returns (buttons: map<int, bool>, expired: set<int>)
      ensures buttons == ForcePulses(buttons0, pulses, now)
      ensures forall k :: k in expired <==> k in pulses && now >= pulses[k]
    {
      var timers := pulses;
      expired := {};
      buttons := buttons0;
      var todo := timers.Keys;
      ghost var done: set<int> := {};
      while todo != {}
        invariant todo <= timers.Keys
        invariant done == timers.Keys - todo
        invariant expired == ExpiredAmong(timers, now, done)
        invariant buttons == ForcedAmong(buttons0, timers, now, done)
        decreases todo
      {
        ghost var some := SomeMember(todo);
        var btnId :| btnId in todo;
        ForcedAmongAdd(buttons0, timers, now, done, btnId);
        ExpiredAmongAdd(timers, now, done, btnId);
        if now < timers[btnId] {
          buttons := buttons[btnId := true];
        } else {
          expired := expired + {btnId};
        }
        done := done + {btnId};
        todo := todo - {btnId};
      }
      ForcedAmongAll(buttons0, timers, now);
    }

    /** `del self._pulse_timers[btn_id]` for every collected id. */
    method DeleteTimers(expired: set<int>)
      modifies this
      ensures pulses == old(pulses) - expired && prev == old(prev)
    {
      var rest := expired;
      while rest != {}
        invariant prev == old(prev)
        invariant pulses == old(pulses) - (expired - rest)
        decreases rest
      {
        ghost var some := SomeMember(rest);
        var btnId :| btnId in rest;
        pulses := pulses - {btnId};
        rest := rest - {btnId};
      }
    }

    /** The `all_true` loop of a multi-input direct binding. */
    method AllTrue(items: seq<string>) returns (r: Result<bool>)
      ensures r == AllSwitchesOn(items, prev)
    {
      var allTrue := true;
      var j := 0;
      while j < |items|
        invariant 0 <= j <= |items|
        invariant allTrue ==> AllSwitchesOn(items, prev) == AllSwitchesOn(items[j..], prev)
        invariant !allTrue ==> AllSwitchesOn(items, prev) == Ok(false)
      {
        var item := items[j];
        if IsSwitchSource(item) {
          var idx := SourceIndex(item);
          if idx.None? {
            return Raised;
          }
          var key := SwitchKey(idx.value);
          if key !in prev {
            allTrue := false;
            break;
          }
          if !prev[key] {
            allTrue := false;
            break;
          }
        }
        assert items[j..][1..] == items[j + 1..];
        j := j + 1;
      }
      r := Ok(allTrue);
    }

    /** The second pass: direct-mode `button:` bindings re-assert the cached
      switch values. It runs outside any `try`, so a raise leaves the call. */
    method ReassertDirect(cmd: VJoyCommand) returns (r: Result<VJoyCommand>)
      ensures r == match SecondPass(bindings, prev, cmd.buttons)
                   case Raised => Raised
                   case Ok(buttons) => Ok(cmd.(buttons := buttons))
    {
      var out := cmd;
      var i := 0;
      while i < |bindings|
        invariant 0 <= i <= |bindings|
        invariant SecondPass(bindings[..i], prev, cmd.buttons) == Ok(out.buttons)
        invariant out == cmd.(buttons := out.buttons)
      {
        var b := bindings[i];
        assert bindings[..i + 1][..i] == bindings[..i];
        if IsDirectButton(b) {
          var id := ParseInt(b.target[7..]);
          if id.None? {
            SecondPassRaisedPersists(bindings, prev, cmd.buttons, i + 1);
            return Raised;
          }
          if b.input != "" && |b.inputs| == 0 {
            if IsSwitchSource(b.input) {
              var idx := SourceIndex(b.input);
              if idx.None? {
                SecondPassRaisedPersists(bindings, prev, cmd.buttons, i + 1);
                return Raised;
              }
              var key := SwitchKey(idx.value);
              if key in prev {
                out := out.(buttons := out.buttons[id.value := prev[key]]);
              }
            }
          } else if |b.inputs| > 0 {
            var all := AllTrue(b.inputs);
            if all.Raised? {
              SecondPassRaisedPersists(bindings, prev, cmd.buttons, i + 1);
              return Raised;
            }
            out := out.(buttons := out.buttons[id.value := all.value]);
          }
        }
        i := i + 1;
      }
      assert bindings[..i] == bindings;
      r := Ok(out);
    }
  }

  /** `buttons` with the buttons among `done` whose timer is live forced on. */
  ghost function ForcedAmong(buttons: map<int, bool>, pulses: map<int, int>, now: int, done: set<int>): map<int, bool> {
    buttons + map k | k in done && k in pulses && now < pulses[k] :: true
  }

  lemma ForcedAmongAdd(buttons: map<int, bool>, pulses: map<int, int>, now: int, done: set<int>, k: int)
    requires k in pulses
    ensures ForcedAmong(buttons, pulses, now, done + {k}) ==
            if now < pulses[k] then ForcedAmong(buttons, pulses, now, done)[k := true]
            else ForcedAmong(buttons, pulses, now, done)
  {
    var lhs, rhs := ForcedAmong(buttons, pulses, now, done + {k}), ForcedAmong(buttons, pulses, now, done);
    var target := if now < pulses[k] then rhs[k := true] else rhs;
    forall g
      ensures g in lhs <==> g in target
      ensures g in lhs ==> lhs[g] == target[g]
    {
    }
    assert lhs == target;
  }

  /** The timers among `done` that have run out. */
  ghost function ExpiredAmong(pulses: map<int, int>, now: int, done: set<int>): set<int> {
    set k | k in done && k in pulses && now >= pulses[k]
  }

  lemma ExpiredAmongAdd(pulses: map<int, int>, now: int, done: set<int>, k: int)
    requires k in pulses
    ensures ExpiredAmong(pulses, now, done + {k}) ==
            if now < pulses[k] then ExpiredAmong(pulses, now, done)
            else ExpiredAmong(pulses, now, done) + {k}
  {
  }

  lemma ForcedAmongAll(buttons: map<int, bool>, pulses: map<int, int>, now: int)
    ensures ForcedAmong(buttons, pulses, now, pulses.Keys) == ForcePulses(buttons, pulses, now)
  {
    var lhs, rhs := ForcedAmong(buttons, pulses, now, pulses.Keys), ForcePulses(buttons, pulses, now);
    forall g
      ensures g in lhs <==> g in rhs
      ensures g in lhs ==> lhs[g] == rhs[g]
    {
    }
    assert lhs == rhs;
  }

  /** Deleting the expired timers leaves exactly the live ones. */
  lemma ExpiredComplement(pulses: map<int, int>, now: int, expired: set<int>)
    requires forall k :: k in expired <==> k in pulses && now >= pulses[k]
    ensures pulses - expired == LivePulses(pulses, now)
  {
    var live := LivePulses(pulses, now);
    assert forall k :: k in pulses - expired <==> k in live;
    assert forall k :: k in live ==> (pulses - expired)[k] == live[k];
  }

}
