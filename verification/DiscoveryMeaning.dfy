/** What the manager retains for a device, and what it makes of a document, in literal terms. */
module DiscoveryMeaning {
  import opened Common
  import opened Text
  import opened Parsers
  import opened Discovery
  import ParserPairs

  // ---------------------------------------------------------------- topics

  predicate ShownAsLight(plan: Plan, key: string) {
    key in plan.overrides && plan.overrides[key] == "light"
  }

  predicate IsLight(plan: Plan, key: string)
    requires key in plan.inv.devices
  {
    var kind := plan.inv.devices[key].kind;
    kind == Some(3) || kind == Some(4) || (kind == Some(1) && ShownAsLight(plan, key))
  }

  predicate IsSwitch(plan: Plan, key: string)
    requires key in plan.inv.devices
  {
    plan.inv.devices[key].kind == Some(1) && !ShownAsLight(plan, key)
  }

  predicate IsCover(plan: Plan, key: string)
    requires key in plan.inv.devices
  {
    var kind := plan.inv.devices[key].kind;
    kind == Some(8) || kind == Some(9) || kind == Some(18) || kind == Some(19)
  }

  function LightTopic(busId: string): string {
    "homeassistant/light/" + busId + "/config"
  }

  function SwitchTopic(busId: string): string {
    "homeassistant/switch/" + busId + "/config"
  }

  function CoverTopic(busId: string): string {
    "homeassistant/cover/" + busId + "/config"
  }

  lemma TopicTexts(busId: string)
    ensures TopicFor("light", busId) == LightTopic(busId)
    ensures TopicFor("switch", busId) == SwitchTopic(busId)
    ensures TopicFor("cover", busId) == CoverTopic(busId)
  {
    assert "homeassistant/" + ("light" + "/") == "homeassistant/light/";
    assert "homeassistant/" + ("switch" + "/") == "homeassistant/switch/";
    assert "homeassistant/" + ("cover" + "/") == "homeassistant/cover/";
  }

  /** The topic that belongs to a device: its type decides the component, and for type 1 the user does. */
  lemma TopicIs(plan: Plan, key: string)
    requires key in plan.inv.devices
    ensures var busId := plan.inv.devices[key].busId;
      && (CanonicalTopic(plan, key) == Some(LightTopic(busId)) <==> IsLight(plan, key))
      && (CanonicalTopic(plan, key) == Some(SwitchTopic(busId)) <==> IsSwitch(plan, key))
      && (CanonicalTopic(plan, key) == Some(CoverTopic(busId)) <==> IsCover(plan, key))
      && (CanonicalTopic(plan, key) == None <==> !IsLight(plan, key) && !IsSwitch(plan, key) && !IsCover(plan, key))
  {
    hide LightTopic, SwitchTopic, CoverTopic, TopicFor;
    var busId := plan.inv.devices[key].busId;
    TopicTexts(busId);
    TopicsDiffer(busId);
  }

  lemma TopicsDiffer(busId: string)
    ensures LightTopic(busId) != SwitchTopic(busId) && SwitchTopic(busId) != CoverTopic(busId)
    ensures CoverTopic(busId) != LightTopic(busId)
  {
    assert LightTopic(busId)[14] == 'l' && SwitchTopic(busId)[14] == 's' && CoverTopic(busId)[14] == 'c';
  }

  // ---------------------------------------------------------------- documents

  function OnOff(bus: string): map<string, string> {
    map["command_topic" := "scs/switch/set/" + bus, "state_topic" := "scs/switch/state/" + bus,
        "payload_on" := "ON", "payload_off" := "OFF"]
  }

  function Moves(bus: string): map<string, string> {
    map["command_topic" := "scs/cover/set/" + bus, "state_topic" := "scs/cover/state/" + bus]
  }

  /** The entries of a document, and no others: what a switch has, what a light has besides, what a
      dimmer has besides, what a cover has and what a cover with positions has besides. */
  predicate EntriesAre(plan: Plan, key: string, entries: map<string, string>)
    requires key in plan.inv.devices
  {
    var kind, bus := plan.inv.devices[key].kind, UpperAll(plan.inv.devices[key].busId);
    && (IsSwitch(plan, key) ==> entries == OnOff(bus))
    && (IsLight(plan, key) && kind == Some(1) ==> entries == OnOff(bus)["on_command_type" := "first"])
    && (IsLight(plan, key) && kind != Some(1) ==>
          entries == OnOff(bus)["on_command_type" := "first"]
            ["brightness_command_topic" := "scs/switch/setlevel/" + bus]
            ["brightness_state_topic" := "scs/switch/value/" + bus])
    && (kind == Some(8) || kind == Some(18) ==> entries == Moves(bus))
    && (kind == Some(9) || kind == Some(19) ==>
          entries == Moves(bus)["position_command_topic" := "scs/cover/setposition/" + bus]
            ["position_topic" := "scs/cover/value/" + bus])
  }

  lemma SwitchEntries(bus: string)
    ensures Entries(1, "switch", bus) == OnOff(bus)
  {
  }

  lemma LampEntries(bus: string)
    ensures Entries(1, "light", bus) == OnOff(bus)["on_command_type" := "first"]
  {
  }

  lemma DimmerEntries(kind: int, bus: string)
    requires kind == 3 || kind == 4
    ensures Entries(kind, "light", bus) == OnOff(bus)["on_command_type" := "first"]
      ["brightness_command_topic" := "scs/switch/setlevel/" + bus]
      ["brightness_state_topic" := "scs/switch/value/" + bus]
  {
  }

  lemma CoverEntries(kind: int, bus: string)
    requires kind == 8 || kind == 18
    ensures Entries(kind, "cover", bus) == Moves(bus)
  {
  }

  lemma PercentEntries(kind: int, bus: string)
    requires kind == 9 || kind == 19
    ensures Entries(kind, "cover", bus) ==
      Moves(bus)["position_command_topic" := "scs/cover/setposition/" + bus]["position_topic" := "scs/cover/value/" + bus]
  {
  }

  lemma EntriesOf(plan: Plan, key: string)
    requires key in plan.inv.devices && CanonicalTopic(plan, key).Some?
    ensures var d := plan.inv.devices[key];
      EntriesAre(plan, key, Entries(d.kind.value, Component(d.kind, ModeOf(plan.overrides, key)).value, UpperAll(d.busId)))
  {
    hide UpperAll, TopicFor, Entries, OnOff, Moves;
    var d := plan.inv.devices[key];
    var kind, bus := d.kind.value, UpperAll(d.busId);
    SwitchEntries(bus);
    LampEntries(bus);
    if kind in {3, 4} { DimmerEntries(kind, bus); }
    if kind in {8, 18} { CoverEntries(kind, bus); }
    if kind in {9, 19} { PercentEntries(kind, bus); }
  }

  // ---------------------------------------------------------------- the registry

  /** The entity registry has this identity at `i`. */
  predicate EntryAt(entries: seq<RegistryEntry>, busId: string, i: int) {
    0 <= i < |entries| && entries[i].platform == "mqtt" && entries[i].uniqueId == "scsgate_" + UpperAll(busId)
  }

  ghost predicate OnlyAt(entries: seq<RegistryEntry>, busId: string, i: int) {
    EntryAt(entries, busId, i) && forall j :: EntryAt(entries, busId, j) ==> j == i
  }

  ghost predicate TwoEntries(entries: seq<RegistryEntry>, busId: string) {
    exists i, j :: i < j && EntryAt(entries, busId, i) && EntryAt(entries, busId, j)
  }

  lemma LaterEntry(entries: seq<RegistryEntry>, busId: string, i: int)
    requires entries != [] && 0 <= i
    ensures EntryAt(entries[1..], busId, i) <==> EntryAt(entries, busId, i + 1)
  {
  }

  lemma {:induction false} MatchesNone(entries: seq<RegistryEntry>, busId: string)
    ensures Matches(entries, busId) == [] <==> forall i :: !EntryAt(entries, busId, i)
  {
    hide UpperAll;
    if entries != [] {
      MatchesNone(entries[1..], busId);
      forall i | EntryAt(entries, busId, i) ensures Matches(entries, busId) != [] {
        if i > 0 { LaterEntry(entries, busId, i - 1); } else { assert EntryAt(entries, busId, 0); }
      }
      if i :| EntryAt(entries[1..], busId, i) { LaterEntry(entries, busId, i); }
      if Matches(entries, busId) != [] && Matches(entries[1..], busId) == [] { assert EntryAt(entries, busId, 0); }
    }
  }

  lemma {:induction false} MatchesOne(entries: seq<RegistryEntry>, busId: string) returns (i: int)
    requires |Matches(entries, busId)| == 1
    ensures OnlyAt(entries, busId, i) && Matches(entries, busId) == [entries[i]]
  {
    hide UpperAll;
    if EntryAt(entries, busId, 0) {
      i := 0;
      MatchesNone(entries[1..], busId);
      forall j | EntryAt(entries, busId, j) ensures j == 0 {
        if j > 0 { LaterEntry(entries, busId, j - 1); }
      }
    } else {
      var before := MatchesOne(entries[1..], busId);
      i := before + 1;
      LaterEntry(entries, busId, before);
      forall j | EntryAt(entries, busId, j) ensures j == i { LaterEntry(entries, busId, j - 1); }
    }
  }

  lemma {:induction false} MatchesTwo(entries: seq<RegistryEntry>, busId: string)
    ensures |Matches(entries, busId)| > 1 <==> TwoEntries(entries, busId)
  {
    hide UpperAll;
    if entries != [] {
      var rest := entries[1..];
      MatchesNone(rest, busId);
      MatchesTwo(rest, busId);
      if EntryAt(entries, busId, 0) {
        if j :| EntryAt(rest, busId, j) { LaterEntry(entries, busId, j); }
      }
      if i, j :| i < j && EntryAt(rest, busId, i) && EntryAt(rest, busId, j) {
        LaterEntry(entries, busId, i);
        LaterEntry(entries, busId, j);
      }
      if i, j :| i < j && EntryAt(entries, busId, i) && EntryAt(entries, busId, j) {
        LaterEntry(entries, busId, j - 1);
        if i > 0 { LaterEntry(entries, busId, i - 1); }
      }
    }
  }

  /** A device is in conflict exactly when the entity registry has its identity twice. */
  lemma ConflictsIff(registry: Registry, busId: string)
    ensures Conflicts(registry, busId) <==> TwoEntries(registry.entries, busId)
  {
    hide Matches, TwoEntries;
    MatchesTwo(registry.entries, busId);
  }

  predicate HasIdentifier(registry: Registry, i: int, identifier: string) {
    && 0 <= i < |registry.entries|
    && registry.entries[i].deviceId.Some? && registry.entries[i].deviceId.value != ""
    && registry.entries[i].deviceId.value in registry.identifiers
    && registry.identifiers[registry.entries[i].deviceId.value] == [identifier]
  }

  /** The only entity of this identity belongs to a device with this one MQTT identifier. */
  ghost predicate GroupedUnder(registry: Registry, busId: string, identifier: string) {
    exists i :: OnlyAt(registry.entries, busId, i) && HasIdentifier(registry, i, identifier)
  }

  lemma IdentifierIff(registry: Registry, busId: string, identifier: string)
    ensures Identifier(registry, busId) == Some(identifier) <==> GroupedUnder(registry, busId, identifier)
  {
    hide UpperAll, Matches;
    var matches := Matches(registry.entries, busId);
    if |matches| == 1 {
      var i := MatchesOne(registry.entries, busId);
      assert matches[0] == registry.entries[i];
      if Identifier(registry, busId) == Some(identifier) {
        var found := registry.identifiers[registry.entries[i].deviceId.value];
        assert found == [found[0]];
        assert HasIdentifier(registry, i, identifier);
      }
      if HasIdentifier(registry, i, identifier) {
        var found := registry.identifiers[registry.entries[i].deviceId.value];
        assert |found| == 1 && found[0] == identifier;
      }
    }
    if i :| OnlyAt(registry.entries, busId, i) && HasIdentifier(registry, i, identifier) {
      MatchesNone(registry.entries, busId);
      MatchesTwo(registry.entries, busId);
      assert |matches| == 1;
    }
  }

  lemma {:induction false} AlnumConcat(a: string, b: string)
    ensures AlnumOnly(a + b) == AlnumOnly(a) + AlnumOnly(b)
  {
    if a == "" {
      assert a + b == b;
      AlnumNothing();
    } else {
      hide AlnumOnly;
      assert (a + b)[1..] == a[1..] + b && (a + b)[0] == a[0];
      AlnumConcat(a[1..], b);
      AlnumFirst(a + b);
      AlnumFirst(a);
      Regroup(AlnumOnly([a[0]]), AlnumOnly(a[1..]), AlnumOnly(b));
    }
  }

  lemma AlnumFirst(s: string)
    requires s != ""
    ensures AlnumOnly(s) == AlnumOnly([s[0]]) + AlnumOnly(s[1..])
  {
    hide IsAlnum;
    assert [s[0]][1..] == "";
  }

  lemma AlnumOne(c: char)
    ensures AlnumOnly([c]) == if 'a' <= c <= 'z' || 'A' <= c <= 'Z' || '0' <= c <= '9' then [c] else ""
  {
  }

  /** Of a gateway id, only letters and digits are kept: each by itself, in order. */
  lemma AlnumMeans(a: string, c: char, b: string)
    ensures AlnumOnly(a + [c] + b) ==
      AlnumOnly(a) + (if 'a' <= c <= 'z' || 'A' <= c <= 'Z' || '0' <= c <= '9' then [c] else "") + AlnumOnly(b)
    ensures AlnumOnly("") == ""
  {
    hide AlnumOnly;
    AlnumConcat(a + [c], b);
    AlnumConcat(a, [c]);
    AlnumOne(c);
    AlnumNothing();
  }

  lemma AlnumNothing()
    ensures AlnumOnly("") == ""
  {
  }

  predicate DefaultIdentifier(gatewayId: string, busId: string, head: string, tail: string, identifier: string) {
    && head + tail == AlnumOnly(LowerAll(gatewayId))
    && |tail| <= 24 && (head != "" ==> |tail| == 24)
    && identifier == "scsgate_" + tail + "_" + LowerAll(busId)
  }

  /** The identifier of a new device: the last 24 letters and digits of the gateway id, and the bus id. */
  lemma DefaultIdentifierIs(gatewayId: string, busId: string) returns (head: string, tail: string)
    ensures DefaultIdentifier(gatewayId, busId, head, tail, DeviceIdentifier(gatewayId, busId))
  {
    hide AlnumOnly, LowerAll;
    var s := AlnumOnly(LowerAll(gatewayId));
    tail := LastChars(s, 24);
    head := s[..|s| - |tail|];
  }

  // ---------------------------------------------------------------- what is retained

  predicate HasName(d: Device) {
    d.name.Some? && d.name.value != ""
  }

  function KindText(kind: Option<int>): string {
    match kind
    case Some(1) => "1"
    case Some(3) => "3"
    case Some(4) => "4"
    case Some(8) => "8"
    case Some(9) => "9"
    case Some(18) => "18"
    case Some(19) => "19"
    case _ => ""
  }

  ghost predicate BlockIs(plan: Plan, key: string, block: DeviceBlock)
    requires key in plan.inv.devices
  {
    var d := plan.inv.devices[key];
    && block.name == (if HasName(d) then d.name.value else "SCS " + UpperAll(d.busId))
    && block.model == "SCS type " + KindText(d.kind)
    && (GroupedUnder(plan.registry, key, block.identifier)
        || ((forall x :: GroupedUnder(plan.registry, key, x) ==> x == "")
            && exists head, tail :: DefaultIdentifier(plan.gatewayId, d.busId, head, tail, block.identifier)))
  }

  /** The document of a device. */
  ghost predicate DocumentIs(plan: Plan, key: string, document: Document)
    requires key in plan.inv.devices
  {
    var d := plan.inv.devices[key];
    && document.uniqueId == Some("scsgate_" + UpperAll(d.busId))
    && document.name == (if HasName(d) then d.name.value else UpperAll(d.busId))
    && document.origin == Named("SCSGATE")
    && document.device.Some? && BlockIs(plan, key, document.device.value)
    && EntriesAre(plan, key, document.entries)
  }

  lemma KindTexts(kind: Option<int>)
    requires kind.Some? && kind.value in {1, 3, 4, 8, 9, 18, 19}
    ensures KindName(kind) == "SCS type " + KindText(kind)
  {
    hide ParserPairs.ShowInt;
    KindNumbers();
  }

  lemma KindNumbers()
    ensures ParserPairs.ShowInt(1) == "1" && ParserPairs.ShowInt(3) == "3" && ParserPairs.ShowInt(4) == "4"
    ensures ParserPairs.ShowInt(8) == "8" && ParserPairs.ShowInt(9) == "9"
    ensures ParserPairs.ShowInt(18) == "18" && ParserPairs.ShowInt(19) == "19"
  {
    assert ParserPairs.Digits(1) == "1";
  }

  lemma BlockBuilt(plan: Plan, key: string)
    requires Publishable(plan, key)
    ensures PayloadOf(plan, key).device.Some? && BlockIs(plan, key, PayloadOf(plan, key).device.value)
  {
    hide UpperAll, LowerAll, Entries, TopicFor, Conflicts, Identifier, GroupedUnder, KindName, KindText, DeviceIdentifier,
      DefaultIdentifier;
    var d := plan.inv.devices[key];
    var head, tail := DefaultIdentifierIs(plan.gatewayId, d.busId);
    KindTexts(d.kind);
    forall x ensures Identifier(plan.registry, key) == Some(x) <==> GroupedUnder(plan.registry, key, x) {
      IdentifierIff(plan.registry, key, x);
    }
  }

  lemma DocumentBuilt(plan: Plan, key: string)
    requires Publishable(plan, key)
    ensures DocumentIs(plan, key, PayloadOf(plan, key))
  {
    hide UpperAll, Entries, TopicFor, Conflicts, Identifier, KindName, DeviceIdentifier, BlockIs, EntriesAre;
    BlockBuilt(plan, key);
    EntriesOf(plan, key);
  }

  /** The topic of a device, as its type and the user have it; none for a type that is not supported. */
  predicate IsTopicOf(plan: Plan, key: string, topic: string)
    requires key in plan.inv.devices
  {
    var busId := plan.inv.devices[key].busId;
    || (IsLight(plan, key) && topic == LightTopic(busId))
    || (IsSwitch(plan, key) && topic == SwitchTopic(busId))
    || (IsCover(plan, key) && topic == CoverTopic(busId))
  }

  /** A document is retained there, unless the registry has the identity of the device twice. */
  ghost predicate OwnTopic(plan: Plan, key: string, topic: string) {
    key in plan.inv.devices && !TwoEntries(plan.registry.entries, key) && IsTopicOf(plan, key, topic)
  }

  /** Every device has its document under its topic, and nothing else changed. */
  ghost predicate Retained(plan: Plan, before: Store, after: Store) {
    && (forall key, t :: OwnTopic(plan, key, t) ==> t in after && DocumentIs(plan, key, after[t]))
    && (forall t :: (forall key :: !OwnTopic(plan, key, t)) ==>
          (t in after <==> t in before) && (t in before ==> after[t] == before[t]))
  }

  lemma OwnIsCanonical(plan: Plan, key: string, topic: string)
    requires Listed(plan.inv)
    ensures OwnTopic(plan, key, topic) <==> IsCanonical(plan, plan.inv.order, key, topic)
  {
    hide LightTopic, SwitchTopic, CoverTopic, CanonicalTopic, Conflicts, TwoEntries, IsLight, IsSwitch, IsCover;
    if key in plan.inv.devices {
      ConflictsIff(plan.registry, key);
      TopicIs(plan, key);
    }
  }

  lemma SyncRetains(plan: Plan, before: Store, after: Store)
    requires Listed(plan.inv) && SyncedFor(plan, plan.inv.order, before, after)
    ensures Retained(plan, before, after)
  {
    hide IsCanonical, Listed, PayloadOf, DocumentIs, Publishable, TwoEntries, IsLight, IsSwitch, IsCover, LightTopic,
      SwitchTopic, CoverTopic;
    forall key, t ensures OwnTopic(plan, key, t) <==> IsCanonical(plan, plan.inv.order, key, t) {
      OwnIsCanonical(plan, key, t);
    }
    forall key, t | OwnTopic(plan, key, t) ensures t in after && DocumentIs(plan, key, after[t]) {
      assert IsCanonical(plan, plan.inv.order, key, t);
      CanonicalIsBuilt(plan, plan.inv.order, key, t, after);
    }
    forall t | forall key :: !OwnTopic(plan, key, t)
      ensures (t in after <==> t in before) && (t in before ==> after[t] == before[t])
    {
      assert forall k :: !IsCanonical(plan, plan.inv.order, k, t);
    }
  }

  lemma CanonicalIsBuilt(plan: Plan, keys: seq<string>, key: string, topic: string, after: Store)
    requires IsCanonical(plan, keys, key, topic)
    requires Publishable(plan, key) ==> topic in after && after[topic] == PayloadOf(plan, key)
    ensures topic in after && DocumentIs(plan, key, after[topic])
  {
    hide DocumentIs, PayloadOf, Publishable;
    DocumentBuilt(plan, key);
  }

  // ---------------------------------------------------------------- documents of the firmware

  /** A document lacks a device block, or an origin of this name. */
  predicate LacksMetadata(document: Document) {
    document.device.None? || document.origin == NoOrigin
    || (document.origin.Named? && document.origin.name != "SCSGATE")
  }

  /** When a document calls for a reconciliation, and when looking at it raises. */
  lemma JudgeMeans(document: Document, busId: string)
    ensures Judge(document, busId) == Poor <==>
      document.uniqueId == Some("scsgate_" + UpperAll(busId)) && LacksMetadata(document)
    ensures Judge(document, busId) == Escapes <==>
      document.uniqueId == Some("scsgate_" + UpperAll(busId)) && document.device.Some? && document.origin == NotAnObject
  {
    hide UpperAll;
  }

  predicate IsOwnId(uniqueId: Option<string>) {
    uniqueId.Some? && "scsgate_" <= uniqueId.value && UpperAll(uniqueId.value[8..]) == uniqueId.value[8..]
  }

  lemma BusOfMeans(uniqueId: string)
    ensures BusOf(uniqueId) == UpperAll(if "scsgate_" <= uniqueId then uniqueId[8..] else uniqueId)
    ensures uniqueId == "scsgate_" + UpperAll(BusOf(uniqueId)) <==> IsOwnId(Some(uniqueId))
  {
    hide UpperAll;
    UpperTwice(uniqueId);
    if "scsgate_" <= uniqueId {
      UpperTwice(uniqueId[8..]);
      assert uniqueId == "scsgate_" + uniqueId[8..];
    }
    assert uniqueId == "scsgate_" + UpperAll(BusOf(uniqueId)) ==> "scsgate_" <= uniqueId;
  }

  lemma UpperTwice(s: string)
    ensures UpperAll(UpperAll(s)) == UpperAll(s) && |UpperAll(s)| == |s|
  {
  }

  /** A document sets off a reconciliation only if its unique id is written as the firmware writes it,
      in upper case behind the prefix, and it lacks what the manager adds. */
  lemma PoorIff(document: Document)
    ensures CanBePoor(document) <==> IsOwnId(document.uniqueId) && LacksMetadata(document)
  {
    hide UpperAll, BusOf, LacksMetadata;
    if document.uniqueId.Some? {
      BusOfMeans(document.uniqueId.value);
      JudgeMeans(document, BusOf(document.uniqueId.value));
    }
  }

  // ---------------------------------------------------------------- the indices

  predicate BindsTo(message: Message, uniqueId: string) {
    message.Doc? && message.document.uniqueId == Some(uniqueId) && "scsgate_" <= uniqueId
  }

  predicate BindsSome(message: Message) {
    message.Doc? && message.document.uniqueId.Some? && "scsgate_" <= message.document.uniqueId.value
  }

  predicate Bound(ix: Index, uniqueId: string, topic: string) {
    topic in ix.ids && ix.ids[topic] == uniqueId
  }

  /** What a message changes.  A topic is bound to the id of its last document, unless it was cleared
      since; an id lists every topic it was bound to, unless it was cleared while it was. */
  lemma SeeMeans(ix: Index, topic: string, message: Message, u: string, t: string)
    requires Agrees(ix)
    ensures Bound(See(ix, topic, message), u, t) <==>
      if t == topic && (message == Cleared || BindsSome(message)) then BindsTo(message, u) else Bound(ix, u, t)
    ensures t in ObservedOf(See(ix, topic, message), u) <==>
      || (t == topic && BindsTo(message, u))
      || (t in ObservedOf(ix, u) && !(t == topic && message == Cleared && Bound(ix, u, t)))
  {
  }

  /** The last message of the run that binds or clears the topic binds it to this id. */
  ghost predicate LastBinding(received: seq<(string, Message)>, uniqueId: string, topic: string, i: int) {
    && 0 <= i < |received| && received[i].0 == topic && BindsTo(received[i].1, uniqueId)
    && forall j :: i < j < |received| && received[j].0 == topic ==> received[j].1 != Cleared && !BindsSome(received[j].1)
  }

  /** After any run, a topic is bound to an id exactly when its last document was for it and nothing
      has cleared it since. */
  lemma {:induction false} BoundIff(received: seq<(string, Message)>, u: string, t: string)
    ensures Agrees(SeeAll(received))
    ensures Bound(SeeAll(received), u, t) <==> exists i :: LastBinding(received, u, t, i)
  {
    hide Agrees, Bound, BindsSome;
    if received == [] {
      NothingBound(u, t);
    } else {
      var n := |received| - 1;
      var front, last := received[..n], received[n];
      BoundIff(front, u, t);
      var before := SeeAll(front);
      SeeKeepsAgreement(before, last.0, last.1);
      SeeMeans(before, last.0, last.1, u, t);
      BindsToBinds(last.1, u);
      if i :| LastBinding(front, u, t, i) {
        if !(last.0 == t && (last.1 == Cleared || BindsSome(last.1))) { assert LastBinding(received, u, t, i); }
      }
      if i :| LastBinding(received, u, t, i) {
        if i < n { assert LastBinding(front, u, t, i); }
      }
      if last.0 == t && BindsTo(last.1, u) { assert LastBinding(received, u, t, n); }
    }
  }

  lemma NothingBound(u: string, t: string)
    ensures Agrees(SeeAll([])) && !Bound(SeeAll([]), u, t)
  {
  }

  lemma BindsToBinds(message: Message, u: string)
    ensures BindsTo(message, u) ==> BindsSome(message)
  {
  }
}
