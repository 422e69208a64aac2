/** The discovery documents of device_manager.py, the retained store they go to, and the two
indices kept of the documents that were seen. */
module Discovery {
  import opened Common
  import opened Text
  import ParserPairs
  import opened Parsers

  // ---------------------------------------------------------------- documents

  datatype Origin = NoOrigin | Named(name: string) | NotAnObject

  datatype DeviceBlock = DeviceBlock(identifier: string, name: string, model: string)

  /** What the manager reads of a document, and the topics it writes into one.  A `unique_id` that
      is absent or no string is `None`; a falsy `device` is `None`. */
  datatype Document = Document(
    uniqueId: Option<string>,
    name: string,
    origin: Origin,
    device: Option<DeviceBlock>,
    entries: map<string, string>)

  datatype Message = Cleared | Malformed | Doc(document: Document)

  function Component(kind: Option<int>, mode: string): Option<string> {
    match kind
    case None => None
    case Some(k) =>
      if k == 1 then Some(if mode == "light" then "light" else "switch")
      else if k == 3 || k == 4 then Some("light")
      else if k in {8, 9, 18, 19} then Some("cover")
      else None
  }

  function TopicFor(component: string, busId: string): string {
    "homeassistant/" + (component + ("/" + (busId + "/config")))
  }

  /** `discovery_topic` */
  function Topic(device: Device, mode: string): Option<string> {
    match Component(device.kind, mode)
    case None => None
    case Some(component) => Some(TopicFor(component, device.busId))
  }

  function UniqueId(busId: string): string {
    "scsgate_" + UpperAll(busId)
  }

  /** Python's `name or fallback`. */
  function NameOr(name: Option<string>, fallback: string): string {
    if name.Some? && name.value != "" then name.value else fallback
  }

  predicate IsAlnum(c: char) {
    IsWord(c) && c != '_'
  }

  function AlnumOnly(s: string): string {
    if s == "" then "" else (if IsAlnum(s[0]) then [s[0]] else "") + AlnumOnly(s[1..])
  }

  function LastChars(s: string, n: nat): string {
    if |s| <= n then s else s[|s| - n..]
  }

  function DeviceIdentifier(gatewayId: string, busId: string): string {
    "scsgate_" + LastChars(AlnumOnly(LowerAll(gatewayId)), 24) + "_" + LowerAll(busId)
  }

  function KindName(kind: Option<int>): string {
    match kind
    case None => "SCS type None"
    case Some(k) => "SCS type " + ParserPairs.ShowInt(k)
  }

  function Entries(kind: int, component: string, bus: string): map<string, string> {
    (if component == "switch" || component == "light" then
       map["command_topic" := "scs/switch/set/" + bus, "state_topic" := "scs/switch/state/" + bus,
           "payload_on" := "ON", "payload_off" := "OFF"]
     else map[])
    + (if component == "light" then map["on_command_type" := "first"] else map[])
    + (if kind in {3, 4} then
         map["brightness_command_topic" := "scs/switch/setlevel/" + bus,
             "brightness_state_topic" := "scs/switch/value/" + bus]
       else map[])
    + (if component == "cover" then
         map["command_topic" := "scs/cover/set/" + bus, "state_topic" := "scs/cover/state/" + bus]
       else map[])
    + (if kind in {9, 19} then
         map["position_command_topic" := "scs/cover/setposition/" + bus, "position_topic" := "scs/cover/value/" + bus]
       else map[])
  }

  /** `build_discovery_payload` */
  function Payload(device: Device, gatewayId: string, mode: string, existing: Option<string>): Option<Document> {
    match Component(device.kind, mode)
    case None => None
    case Some(component) =>
      var bus := UpperAll(device.busId);
      Some(Document(
        Some(UniqueId(device.busId)),
        NameOr(device.name, bus),
        Named("SCSGATE"),
        Some(DeviceBlock(NameOr(existing, DeviceIdentifier(gatewayId, device.busId)),
                         NameOr(device.name, "SCS " + bus),
                         KindName(device.kind))),
        Entries(device.kind.value, component, bus)))
  }

  // ---------------------------------------------------------------- reconciliation

  datatype Verdict = Poor | Enriched | Escapes

  /** `needs_reconciliation`; an `origin` that is no object raises once it is looked at. */
  function Judge(document: Document, busId: string): Verdict {
    if document.uniqueId != Some(UniqueId(busId)) then Enriched
    else if document.device.None? then Poor
    else match document.origin
      case NotAnObject => Escapes
      case NoOrigin => Poor
      case Named(name) => if name == "SCSGATE" then Enriched else Poor
  }

  predicate IsScsGate(uniqueId: string) {
    "scsgate_" <= uniqueId
  }

  /** `removeprefix` and `upper` of a unique id. */
  function BusOf(uniqueId: string): string {
    UpperAll(if IsScsGate(uniqueId) then uniqueId[8..] else uniqueId)
  }

  /** A document the manager would react to, whichever devices it knows. */
  predicate CanBePoor(document: Document) {
    document.uniqueId.Some? && Judge(document, BusOf(document.uniqueId.value)) == Poor
  }

  /** A document the manager does not react to, and can read. */
  predicate Harmless(document: Document) {
    document.uniqueId.Some? && Judge(document, BusOf(document.uniqueId.value)) == Enriched
  }

  /** No document the manager writes is poor, for any bus id: its echo cannot start a loop. */
  lemma OwnDocumentsAreNeverPoor(device: Device, gatewayId: string, mode: string, existing: Option<string>, busId: string)
    ensures var p := Payload(device, gatewayId, mode, existing);
      p.Some? ==> Judge(p.value, busId) == Enriched && Harmless(p.value)
    ensures Payload(device, gatewayId, mode, existing).Some? <==> Topic(device, mode).Some?
  {
  }

  /** The mode decides how a device is presented, not whether it is. */
  lemma SupportIgnoresMode(device: Device, mode: string)
    ensures Topic(device, mode).Some? <==> Component(device.kind, "switch").Some?
  {
  }

  // ---------------------------------------------------------------- topics and identities

  lemma ComponentsDiffer(a: string, b: string)
    requires a in {"switch", "light", "cover"} && b in {"switch", "light", "cover"}
    ensures a != b ==> a[0] != b[0]
  {
  }

  /** Two devices share a topic only if they share the bus id as it is written. */
  lemma TopicsTellDevicesApart(a: Device, modeA: string, b: Device, modeB: string)
    requires Topic(a, modeA).Some? && Topic(a, modeA) == Topic(b, modeB)
    ensures a.busId == b.busId && Component(a.kind, modeA) == Component(b.kind, modeB)
  {
    var ca, cb := Component(a.kind, modeA).value, Component(b.kind, modeB).value;
    var s, t := TopicFor(ca, a.busId), TopicFor(cb, b.busId);
    assert s[14] == ca[0] && t[14] == cb[0];
    ComponentsDiffer(ca, cb);
    assert |a.busId| == |b.busId|;
    var n := 15 + |ca|;
    assert s[n..n + |a.busId|] == a.busId by { Inside("homeassistant/", ca, "/", a.busId, "/config"); }
    assert t[n..n + |b.busId|] == b.busId by { Inside("homeassistant/", cb, "/", b.busId, "/config"); }
  }

  lemma Inside(a: string, b: string, c: string, d: string, e: string)
    ensures var s := a + (b + (c + (d + e))); var n := |a| + |b| + |c|; s[n..n + |d|] == d
  {
    var s := a + (b + (c + (d + e)));
    assert s == (a + b + c) + d + e;
  }

  lemma UniqueIdsTellBusesApart(a: string, b: string)
    ensures UniqueId(a) == UniqueId(b) <==> UpperAll(a) == UpperAll(b)
    ensures BusOf(UniqueId(a)) == UpperAll(a)
  {
    assert UniqueId(a)[8..] == UpperAll(a) && UniqueId(b)[8..] == UpperAll(b);
    assert UpperAll(UpperAll(a)) == UpperAll(a);
  }

  // ---------------------------------------------------------------- what is seen

  /** `_observed_topics` and `_topic_unique_ids` */
  datatype Index = Index(observed: map<string, set<string>>, ids: map<string, string>)

  function ObservedOf(ix: Index, uniqueId: string): set<string> {
    if uniqueId in ix.observed then ix.observed[uniqueId] else {}
  }

  /** `pop` of the topic, and `discard` from the set of the id it had. */
  function Forget(ix: Index, topic: string): Index {
    if topic !in ix.ids then ix
    else
      var u := ix.ids[topic];
      var ids := ix.ids - {topic};
      if u == "" || u !in ix.observed then Index(ix.observed, ids)
      else Index(ix.observed[u := ix.observed[u] - {topic}], ids)
  }

  function Bind(ix: Index, topic: string, uniqueId: string): Index {
    Index(ix.observed[uniqueId := ObservedOf(ix, uniqueId) + {topic}], ix.ids[topic := uniqueId])
  }

  /** What a received message does to the indices. */
  function See(ix: Index, topic: string, message: Message): Index {
    match message
    case Cleared => Forget(ix, topic)
    case Malformed => ix
    case Doc(d) => if d.uniqueId.Some? && IsScsGate(d.uniqueId.value) then Bind(ix, topic, d.uniqueId.value) else ix
  }

  ghost predicate Agrees(ix: Index) {
    forall t :: t in ix.ids ==> IsScsGate(ix.ids[t]) && t in ObservedOf(ix, ix.ids[t])
  }

  /** The two indices are inverses of each other. */
  ghost predicate Inverse(ix: Index) {
    Agrees(ix) && forall u, t :: t in ObservedOf(ix, u) ==> t in ix.ids && ix.ids[t] == u
  }

  predicate Binds(message: Message) {
    message.Doc? && message.document.uniqueId.Some? && IsScsGate(message.document.uniqueId.value)
  }

  /** A document takes over a topic that another unique id had. */
  predicate Rebinds(ix: Index, topic: string, message: Message) {
    Binds(message) && topic in ix.ids && ix.ids[topic] != message.document.uniqueId.value
  }

  lemma SeeKeepsAgreement(ix: Index, topic: string, message: Message)
    requires Agrees(ix)
    ensures Agrees(See(ix, topic, message))
  {
  }

  lemma ForgetKeepsInverse(ix: Index, topic: string)
    requires Inverse(ix)
    ensures Inverse(Forget(ix, topic))
    ensures forall u :: topic !in ObservedOf(Forget(ix, topic), u)
  {
    var next := Forget(ix, topic);
    forall u, t | t in ObservedOf(next, u) ensures t != topic && t in next.ids && next.ids[t] == u {
      assert t in ObservedOf(ix, u);
    }
  }

  lemma BindKeepsInverse(ix: Index, topic: string, uniqueId: string)
    requires Inverse(ix) && IsScsGate(uniqueId) && (topic in ix.ids ==> ix.ids[topic] == uniqueId)
    ensures Inverse(Bind(ix, topic, uniqueId))
  {
    var next := Bind(ix, topic, uniqueId);
    forall u, t | t in ObservedOf(next, u) ensures t in next.ids && next.ids[t] == u {
      assert t in ObservedOf(ix, u) || (t == topic && u == uniqueId);
    }
  }

  /** Exact inverses stay exact precisely as long as no topic changes its unique id; a re-bound
      topic stays in the set of the id it had before. */
  lemma InverseUnlessRebound(ix: Index, topic: string, message: Message)
    requires Inverse(ix)
    ensures Inverse(See(ix, topic, message)) <==> !Rebinds(ix, topic, message)
    ensures Rebinds(ix, topic, message) ==> topic in ObservedOf(See(ix, topic, message), ix.ids[topic])
  {
    var next := See(ix, topic, message);
    if message.Cleared? { ForgetKeepsInverse(ix, topic); }
    if Rebinds(ix, topic, message) {
      var before := ix.ids[topic];
      assert topic in ObservedOf(next, before) && next.ids[topic] != before;
    } else if message.Doc? && next != ix {
      BindKeepsInverse(ix, topic, message.document.uniqueId.value);
    }
  }

  /** The indices after a run of received messages. */
  function SeeAll(received: seq<(string, Message)>): Index {
    if received == [] then Index(map[], map[])
    else
      var last := received[|received| - 1];
      See(SeeAll(received[..|received| - 1]), last.0, last.1)
  }

  predicate Announced(received: seq<(string, Message)>, topic: string, uniqueId: string) {
    exists m :: m in received && m.0 == topic && Binds(m.1) && m.1.document.uniqueId.value == uniqueId
  }

  /** Every topic keeps one unique id. */
  ghost predicate Steady(received: seq<(string, Message)>) {
    forall t, u, v :: Announced(received, t, u) && Announced(received, t, v) ==> u == v
  }

  lemma {:induction false} IdsWereAnnounced(received: seq<(string, Message)>, topic: string)
    requires topic in SeeAll(received).ids
    ensures Announced(received, topic, SeeAll(received).ids[topic])
  {
    var front, last := received[..|received| - 1], received[|received| - 1];
    assert received == front + [last];
    var before := SeeAll(front);
    if topic in before.ids && SeeAll(received).ids[topic] == before.ids[topic] {
      IdsWereAnnounced(front, topic);
    } else {
      assert last in received;
    }
  }

  /** On a run in which every topic keeps one unique id, the indices are exact inverses. */
  lemma {:induction false} SteadyRunsKeepInverse(received: seq<(string, Message)>)
    requires Steady(received)
    ensures Inverse(SeeAll(received))
  {
    if received != [] {
      var front, last := received[..|received| - 1], received[|received| - 1];
      assert received == front + [last];
      forall t, u | Announced(front, t, u) ensures Announced(received, t, u) {
        var m :| m in front && m.0 == t && Binds(m.1) && m.1.document.uniqueId.value == u;
        assert m in received;
      }
      SteadyRunsKeepInverse(front);
      var before := SeeAll(front);
      if Rebinds(before, last.0, last.1) {
        IdsWereAnnounced(front, last.0);
        assert last in received;
        assert Announced(received, last.0, last.1.document.uniqueId.value);
        assert false;
      }
      InverseUnlessRebound(before, last.0, last.1);
    }
  }

  // ---------------------------------------------------------------- the inventory

  /** `{device.bus_id.upper(): device for device in devices}` */
  datatype Inventory = Inventory(devices: map<string, Device>, order: seq<string>)

  function Collect(devices: seq<Device>): (inv: Inventory)
    ensures Listed(inv)
  {
    if devices == [] then Inventory(map[], [])
    else
      var inv := Collect(devices[..|devices| - 1]);
      var d := devices[|devices| - 1];
      var key := UpperAll(d.busId);
      Inventory(inv.devices[key := d], if key in inv.devices then inv.order else inv.order + [key])
  }

  ghost predicate Listed(inv: Inventory) {
    && (forall k :: k in inv.devices <==> k in inv.order)
    && (forall k :: k in inv.devices ==> UpperAll(inv.devices[k].busId) == k)
    && (forall i, j :: 0 <= i < j < |inv.order| ==> inv.order[i] != inv.order[j])
  }

  /** The device at `i` is for `key`. */
  predicate DeviceFor(devices: seq<Device>, key: string, i: int) {
    0 <= i < |devices| && UpperAll(devices[i].busId) == key
  }

  ghost predicate FirstFor(devices: seq<Device>, key: string, i: int) {
    DeviceFor(devices, key, i) && forall j :: j < i ==> !DeviceFor(devices, key, j)
  }

  ghost predicate LastFor(devices: seq<Device>, key: string, i: int) {
    DeviceFor(devices, key, i) && forall j :: i < j ==> !DeviceFor(devices, key, j)
  }

  /** The order in which keys first appear. */
  ghost predicate InOrder(devices: seq<Device>, a: string, b: string) {
    exists i, j :: FirstFor(devices, a, i) && FirstFor(devices, b, j) && i < j
  }

  /** The inventory holds the last device of every bus id, in the order in which bus ids appear. */
  ghost predicate Collects(devices: seq<Device>, inv: Inventory) {
    && (forall i :: 0 <= i < |devices| ==> UpperAll(devices[i].busId) in inv.devices)
    && (forall key :: key in inv.devices ==> exists i :: LastFor(devices, key, i) && devices[i] == inv.devices[key])
    && (forall m, n :: 0 <= m < n < |inv.order| ==> InOrder(devices, inv.order[m], inv.order[n]))
  }

  lemma FirstStays(devices: seq<Device>, d: Device, key: string, i: int)
    requires FirstFor(devices, key, i)
    ensures FirstFor(devices + [d], key, i)
  {
    forall j | j < i ensures !DeviceFor(devices + [d], key, j) { assert !DeviceFor(devices, key, j); }
  }

  lemma LastMoves(devices: seq<Device>, d: Device, key: string)
    ensures UpperAll(d.busId) == key ==> LastFor(devices + [d], key, |devices|)
    ensures forall i :: UpperAll(d.busId) != key && LastFor(devices, key, i) ==> LastFor(devices + [d], key, i)
  {
    forall i | UpperAll(d.busId) != key && LastFor(devices, key, i) ensures LastFor(devices + [d], key, i) {
      forall j | i < j ensures !DeviceFor(devices + [d], key, j) { assert !DeviceFor(devices, key, j); }
    }
  }

  lemma NewIsFirst(devices: seq<Device>, d: Device)
    requires forall i :: 0 <= i < |devices| ==> UpperAll(devices[i].busId) != UpperAll(d.busId)
    ensures FirstFor(devices + [d], UpperAll(d.busId), |devices|)
  {
  }

  lemma OrderStays(devices: seq<Device>, d: Device, a: string, b: string)
    requires InOrder(devices, a, b)
    ensures InOrder(devices + [d], a, b)
  {
    var i, j :| FirstFor(devices, a, i) && FirstFor(devices, b, j) && i < j;
    FirstStays(devices, d, a, i);
    FirstStays(devices, d, b, j);
  }

  lemma {:induction false} FirstExists(devices: seq<Device>, key: string, k: int) returns (i: int)
    requires DeviceFor(devices, key, k)
    ensures FirstFor(devices, key, i)
    decreases k
  {
    i := k;
    if j :| j < k && DeviceFor(devices, key, j) { i := FirstExists(devices, key, j); }
  }

  lemma {:induction false} CollectCollects(devices: seq<Device>)
    ensures Collects(devices, Collect(devices))
  {
    if devices != [] {
      var n := |devices| - 1;
      var front, d := devices[..n], devices[n];
      assert devices == front + [d];
      CollectCollects(front);
      var before, inv := Collect(front), Collect(devices);
      var new_ := UpperAll(d.busId);
      forall key | key in inv.devices ensures exists i :: LastFor(devices, key, i) && devices[i] == inv.devices[key] {
        LastMoves(front, d, key);
        if key == new_ {
          assert LastFor(devices, key, n);
        } else {
          var i :| LastFor(front, key, i) && front[i] == before.devices[key];
          assert LastFor(devices, key, i) && devices[i] == front[i];
        }
      }
      forall a, b | 0 <= a < b < |inv.order| ensures InOrder(devices, inv.order[a], inv.order[b]) {
        if b < |before.order| {
          OrderStays(front, d, before.order[a], before.order[b]);
        } else {
          NewIsFirst(front, d);
          var key := before.order[a];
          var last :| LastFor(front, key, last) && front[last] == before.devices[key];
          var i := FirstExists(front, key, last);
          FirstStays(front, d, key, i);
        }
      }
    }
  }

  lemma OrderIsKnown(inv: Inventory, i: nat)
    requires Listed(inv) && i < |inv.order|
    ensures inv.order[i] in inv.devices
  {
  }

  // ---------------------------------------------------------------- the registry

  datatype RegistryEntry = RegistryEntry(platform: string, uniqueId: string, deviceId: Option<string>)

  /** Entities, and the "mqtt" identifiers of the devices they are grouped under. */
  datatype Registry = Registry(entries: seq<RegistryEntry>, identifiers: map<string, seq<string>>)

  function Matches(entries: seq<RegistryEntry>, busId: string): seq<RegistryEntry> {
    if entries == [] then []
    else
      (if entries[0].platform == "mqtt" && entries[0].uniqueId == UniqueId(busId) then [entries[0]] else [])
      + Matches(entries[1..], busId)
  }

  predicate Conflicts(registry: Registry, busId: string) {
    |Matches(registry.entries, busId)| > 1
  }

  /** The identifier of the MQTT device an unambiguous entity already belongs to. */
  function Identifier(registry: Registry, busId: string): Option<string> {
    var matches := Matches(registry.entries, busId);
    if |matches| != 1 || matches[0].deviceId.None? || matches[0].deviceId.value == "" then None
    else
      var id := matches[0].deviceId.value;
      if id in registry.identifiers && |registry.identifiers[id]| == 1 then Some(registry.identifiers[id][0]) else None
  }

  // ---------------------------------------------------------------- publishing

  /** Everything a sync works from. */
  datatype Plan = Plan(inv: Inventory, overrides: map<string, string>, gatewayId: string, registry: Registry)

  function ModeOf(overrides: map<string, string>, key: string): string {
    if key in overrides then overrides[key] else "switch"
  }

  function CanonicalTopic(plan: Plan, key: string): Option<string>
    requires key in plan.inv.devices
  {
    Topic(plan.inv.devices[key], ModeOf(plan.overrides, key))
  }

  /** A supported device whose identity is not ambiguous in the registry. */
  predicate Publishable(plan: Plan, key: string) {
    key in plan.inv.devices && !Conflicts(plan.registry, key) && CanonicalTopic(plan, key).Some?
  }

  function PayloadOf(plan: Plan, key: string): Document
    requires Publishable(plan, key)
  {
    Payload(plan.inv.devices[key], plan.gatewayId, ModeOf(plan.overrides, key), Identifier(plan.registry, key)).value
  }

  type Store = map<string, Document>

  /** The store once the devices `keys` names have been gone through in order. */
  function PublishAll(plan: Plan, keys: seq<string>, store: Store): Store {
    if keys == [] then store
    else
      var before := PublishAll(plan, keys[..|keys| - 1], store);
      var key := keys[|keys| - 1];
      if Publishable(plan, key) then before[CanonicalTopic(plan, key).value := PayloadOf(plan, key)] else before
  }

  function CountPublishable(plan: Plan, keys: seq<string>): nat {
    if keys == [] then 0
    else CountPublishable(plan, keys[..|keys| - 1]) + if Publishable(plan, keys[|keys| - 1]) then 1 else 0
  }

  /** Keys whose identity the registry cannot tell. */
  function Ambiguous(registry: Registry, keys: seq<string>): set<string> {
    set k | k in keys && Conflicts(registry, k)
  }

  lemma PublishNothing(plan: Plan, store: Store)
    ensures PublishAll(plan, [], store) == store && CountPublishable(plan, []) == 0
    ensures Ambiguous(plan.registry, []) == {}
  {
  }

  /** Going through one more key. */
  lemma OneMore(plan: Plan, keys: seq<string>, n: nat, store: Store)
    requires n < |keys|
    ensures PublishAll(plan, keys[..n + 1], store) == PublishAll(plan, [keys[n]], PublishAll(plan, keys[..n], store))
    ensures CountPublishable(plan, keys[..n + 1])
      == CountPublishable(plan, keys[..n]) + CountPublishable(plan, [keys[n]])
    ensures Ambiguous(plan.registry, keys[..n + 1])
      == Ambiguous(plan.registry, keys[..n]) + Ambiguous(plan.registry, [keys[n]])
  {
    hide Publishable, CanonicalTopic, PayloadOf, Conflicts;
    assert keys[..n + 1][..n] == keys[..n];
    assert [keys[n]][..0] == [];
    assert keys[..n + 1] == keys[..n] + [keys[n]];
  }

  predicate IsCanonical(plan: Plan, keys: seq<string>, key: string, topic: string) {
    key in keys && Publishable(plan, key) && CanonicalTopic(plan, key).value == topic
  }

  /** The store changed exactly at the canonical topics of the publishable devices among `keys`. */
  ghost predicate SyncedFor(plan: Plan, keys: seq<string>, before: Store, after: Store) {
    && (forall k, t :: IsCanonical(plan, keys, k, t) ==> t in after && after[t] == PayloadOf(plan, k))
    && (forall t :: (forall k :: !IsCanonical(plan, keys, k, t)) ==>
          (t in after <==> t in before) && (t in before ==> after[t] == before[t]))
  }

  lemma CanonicalTopicsAreDistinct(plan: Plan, a: string, b: string)
    requires Listed(plan.inv) && Publishable(plan, a) && Publishable(plan, b) && a != b
    ensures CanonicalTopic(plan, a) != CanonicalTopic(plan, b)
    ensures PayloadOf(plan, a).uniqueId != PayloadOf(plan, b).uniqueId
  {
    var da, db := plan.inv.devices[a], plan.inv.devices[b];
    if CanonicalTopic(plan, a) == CanonicalTopic(plan, b) {
      TopicsTellDevicesApart(da, ModeOf(plan.overrides, a), db, ModeOf(plan.overrides, b));
    }
    UniqueIdsTellBusesApart(da.busId, db.busId);
  }

  lemma {:induction false} PublishAllSyncs(plan: Plan, keys: seq<string>, store: Store)
    requires Listed(plan.inv)
    ensures SyncedFor(plan, keys, store, PublishAll(plan, keys, store))
  {
    if keys != [] {
      var front, key := keys[..|keys| - 1], keys[|keys| - 1];
      PublishAllSyncs(plan, front, store);
      assert keys == front + [key];
      var before, after := PublishAll(plan, front, store), PublishAll(plan, keys, store);
      forall k, t | IsCanonical(plan, keys, k, t) ensures t in after && after[t] == PayloadOf(plan, k) {
        if k != key {
          assert IsCanonical(plan, front, k, t);
          if Publishable(plan, key) { CanonicalTopicsAreDistinct(plan, k, key); }
        }
      }
      forall t | forall k :: !IsCanonical(plan, keys, k, t)
        ensures (t in after <==> t in store) && (t in store ==> after[t] == store[t])
      {
        assert forall k :: IsCanonical(plan, front, k, t) ==> IsCanonical(plan, keys, k, t);
        assert !IsCanonical(plan, keys, key, t);
      }
    }
  }

  /** Syncing twice from the same inputs changes nothing the second time. */
  lemma SyncIsIdempotent(plan: Plan, store: Store)
    requires Listed(plan.inv)
    ensures var once := PublishAll(plan, plan.inv.order, store);
      PublishAll(plan, plan.inv.order, once) == once
  {
    var keys := plan.inv.order;
    var once := PublishAll(plan, keys, store);
    var twice := PublishAll(plan, keys, once);
    PublishAllSyncs(plan, keys, store);
    PublishAllSyncs(plan, keys, once);
    forall t ensures (t in twice <==> t in once) && (t in once ==> twice[t] == once[t]) {
      if k :| IsCanonical(plan, keys, k, t) {
        assert once[t] == PayloadOf(plan, k) && twice[t] == PayloadOf(plan, k);
      }
    }
  }
}
