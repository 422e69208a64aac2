/** The topics that discovery documents hand to Home Assistant, as the bus monitor classifies
what is seen on them. */
module DiscoveryTraffic {
  import opened Common
  import opened Text
  import opened Parsers
  import opened Discovery
  import opened BusMonitor

  /** `prefix` ends with `part`. */
  lemma EndsCommand(prefix: string, part: string, bus: string)
    requires |part| <= |prefix| && part != "" && prefix[|prefix| - |part|..] == part
    ensures Contains(prefix + bus, part)
  {
    var i := |prefix| - |part|;
    assert (prefix + bus)[i..i + |part|] == part;
    assert OccursAt(prefix + bus, part, i);
    ContainsMeans(prefix + bus, part);
  }

  predicate IsCommandKey(key: string) {
    key in {"command_topic", "brightness_command_topic", "position_command_topic"}
  }

  predicate IsStateKey(key: string) {
    key in {"state_topic", "brightness_state_topic", "position_topic"}
  }

  lemma CommandPrefix(prefix: string, bus: string, payload: string)
    requires prefix in {"scs/switch/set/", "scs/cover/set/", "scs/switch/setlevel/", "scs/cover/setposition/"}
    ensures MessageKind(prefix + bus, payload) == CommandToGateway
  {
    hide Contains;
    var s := prefix + bus;
    assert s[3] == '/';
    if prefix in {"scs/switch/set/", "scs/cover/set/"} {
      EndsCommand(prefix, "/set/", bus);
    } else if prefix == "scs/switch/setlevel/" {
      EndsCommand(prefix, "/setlevel/", bus);
    } else {
      EndsCommand(prefix, "/setposition/", bus);
    }
  }

  /** After no slash of `s` comes what the command and generic patterns start with. */
  ghost predicate Quiet(s: string) {
    forall i :: 0 <= i < |s| - 2 && s[i] == '/' ==> s[i + 1] != 'g' && (s[i + 1] != 's' || s[i + 2] != 'e')
  }

  lemma StatesAreQuiet()
    ensures Quiet("scs/switch/state/") && Quiet("scs/switch/value/")
    ensures Quiet("scs/cover/state/") && Quiet("scs/cover/value/")
  {
  }

  lemma Differ(prefix: string, part: string)
    requires Quiet(prefix)
    requires part in {"/set/", "/setlevel/", "/setposition/", "/generic/from/", "/generic/to/"}
    ensures !Contains(prefix, part)
  {
    hide Contains;
    ContainsMeans(prefix, part);
    assert part[0] == '/' && (part[1] == 'g' || (part[1] == 's' && part[2] == 'e'));
    forall i ensures !OccursAt(prefix, part, i) {
      if 0 <= i && i + |part| <= |prefix| {
        var here := prefix[i..i + |part|];
        assert here[0] == prefix[i] && here[1] == prefix[i + 1] && here[2] == prefix[i + 2];
      }
    }
  }

  predicate NoLower(s: string) {
    forall i :: 0 <= i < |s| ==> !('a' <= s[i] <= 'z')
  }

  /** What is written in upper case behind the last slash does not start a pattern. */
  lemma QuietBeyond(prefix: string, bus: string)
    requires Quiet(prefix) && prefix != "" && prefix[|prefix| - 1] == '/' && NoLower(bus)
    ensures Quiet(prefix + bus)
  {
    var s := prefix + bus;
    forall i | 0 <= i < |s| - 2 && s[i] == '/' ensures s[i + 1] != 'g' && (s[i + 1] != 's' || s[i + 2] != 'e') {
      if i < |prefix| - 1 { assert s[i + 1] == prefix[i + 1]; } else { assert s[i + 1] == bus[i + 1 - |prefix|]; }
    }
  }

  lemma StatePrefix(prefix: string, bus: string, payload: string)
    requires prefix in {"scs/switch/state/", "scs/switch/value/", "scs/cover/state/", "scs/cover/value/"}
    requires NoLower(bus)
    ensures MessageKind(prefix + bus, payload) == InterpretedState
  {
    hide Contains, Quiet, NoLower;
    assert (prefix + bus)[3] == '/';
    StatesAreQuiet();
    QuietBeyond(prefix, bus);
    Differ(prefix + bus, "/set/");
    Differ(prefix + bus, "/setlevel/");
    Differ(prefix + bus, "/setposition/");
    Differ(prefix + bus, "/generic/from/");
    Differ(prefix + bus, "/generic/to/");
  }

  /** Whatever Home Assistant sends because of a discovery document is counted as a command. */
  lemma CommandsAreCommands(kind: int, component: string, bus: string, key: string, payload: string)
    requires key in Entries(kind, component, bus) && IsCommandKey(key)
    ensures MessageKind(Entries(kind, component, bus)[key], payload) == CommandToGateway
  {
    hide MessageKind;
    CommandPrefix("scs/switch/set/", bus, payload);
    CommandPrefix("scs/cover/set/", bus, payload);
    CommandPrefix("scs/switch/setlevel/", bus, payload);
    CommandPrefix("scs/cover/setposition/", bus, payload);
  }

  /** Whatever it listens to is counted as a state. */
  lemma StatesAreStates(kind: int, component: string, bus: string, key: string, payload: string)
    requires NoLower(bus) && key in Entries(kind, component, bus) && IsStateKey(key)
    ensures MessageKind(Entries(kind, component, bus)[key], payload) == InterpretedState
  {
    hide MessageKind;
    StatePrefix("scs/switch/state/", bus, payload);
    StatePrefix("scs/switch/value/", bus, payload);
    StatePrefix("scs/cover/state/", bus, payload);
    StatePrefix("scs/cover/value/", bus, payload);
  }

  lemma TrafficIsClassified(device: Device, gatewayId: string, mode: string, existing: Option<string>, payload: string)
    requires Payload(device, gatewayId, mode, existing).Some?
    ensures var entries := Payload(device, gatewayId, mode, existing).value.entries;
      forall key :: key in entries ==>
        (IsCommandKey(key) ==> MessageKind(entries[key], payload) == CommandToGateway)
        && (IsStateKey(key) ==> MessageKind(entries[key], payload) == InterpretedState)
  {
    hide MessageKind, Entries, IsCommandKey, IsStateKey;
    var bus, component := UpperAll(device.busId), Component(device.kind, mode).value;
    var entries := Entries(device.kind.value, component, bus);
    forall key | key in entries && IsCommandKey(key)
      ensures MessageKind(entries[key], payload) == CommandToGateway
    {
      CommandsAreCommands(device.kind.value, component, bus, key, payload);
    }
    forall key | key in entries && IsStateKey(key)
      ensures MessageKind(entries[key], payload) == InterpretedState
    {
      StatesAreStates(device.kind.value, component, bus, key, payload);
    }
  }
}
