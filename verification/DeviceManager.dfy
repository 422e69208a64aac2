/** The device manager as an object, with the broker it writes to and the messages that come
back from it.

At every await other code may run.  Callbacks: echoes of what the manager wrote, documents of the
firmware and births of Home Assistant, in any order and number.  And steps of other syncs of the
same manager, of its reconcile task, of the options flow and of other clients of the broker. */
module DeviceManager {
  import opened Common
  import opened Discovery
  import opened DiscoveryMeaning
  import opened Parsers
  import opened Text

  /** Bus ids of the unique ids that more than one topic announces. */
  function Doubled(ix: Index): set<string> {
    set u | u in ix.observed && |ix.observed[u]| > 1 :: BusOf(u)
  }

  /** Only the unique id a topic is bound to can become doubled. */
  lemma BindDoubles(ix: Index, topic: string, uniqueId: string)
    ensures Doubled(Bind(ix, topic, uniqueId))
      <= Doubled(ix) + (if |ObservedOf(Bind(ix, topic, uniqueId), uniqueId)| > 1 then {BusOf(uniqueId)} else {})
  {
  }

  lemma ForgetDoubles(ix: Index, topic: string)
    ensures Doubled(Forget(ix, topic)) <= Doubled(ix)
  {
    var next := Forget(ix, topic);
    forall u | u in next.observed && |next.observed[u]| > 1 ensures u in ix.observed && |ix.observed[u]| > 1 {
      if next.observed[u] != ix.observed[u] {
        assert ix.observed[u] == next.observed[u] + (ix.observed[u] * {topic});
      }
    }
  }

  /** A message doubles at most the unique id it binds its topic to. */
  lemma SeeDoubles(ix: Index, topic: string, message: Message)
    ensures var next := See(ix, topic, message);
      Doubled(next) <= Doubled(ix) + if Binds(message) && |ObservedOf(next, message.document.uniqueId.value)| > 1
        then {BusOf(message.document.uniqueId.value)} else {}
  {
    hide Doubled, BusOf;
    if message.Cleared? { ForgetDoubles(ix, topic); }
    if Binds(message) { BindDoubles(ix, topic, message.document.uniqueId.value); }
  }

  lemma TwoElements(topics: set<string>)
    ensures |topics| > 1 <==> exists s, t :: s in topics && t in topics && s != t
  {
    if |topics| > 1 {
      var s :| s in topics;
      var rest := topics - {s};
      assert |rest| > 0;
      var t :| t in rest;
    }
    if s, t :| s in topics && t in topics && s != t {
      assert {s, t} <= topics && |{s, t}| == 2;
      Larger({s, t}, topics);
    }
  }

  lemma Larger(small: set<string>, large: set<string>)
    requires small <= large
    ensures |small| <= |large|
  {
    assert large == small + (large - small);
  }

  /** A bus id is doubled when two topics announce the same unique id for it. */
  lemma DoubledMeans(ix: Index, bus: string)
    ensures bus in Doubled(ix) <==>
      exists u, s, t :: s in ObservedOf(ix, u) && t in ObservedOf(ix, u) && s != t && BusOf(u) == bus
  {
    hide BusOf;
    if u, s, t :| s in ObservedOf(ix, u) && t in ObservedOf(ix, u) && s != t && BusOf(u) == bus {
      TwoElements(ix.observed[u]);
    }
    if bus in Doubled(ix) {
      var u :| u in ix.observed && |ix.observed[u]| > 1 && BusOf(u) == bus;
      TwoElements(ix.observed[u]);
      var s, t :| s in ix.observed[u] && t in ix.observed[u] && s != t;
      assert s in ObservedOf(ix, u) && t in ObservedOf(ix, u);
    }
  }

  lemma AmbiguousMeans(registry: Registry, keys: seq<string>, key: string)
    ensures key in Ambiguous(registry, keys) <==> key in keys && TwoEntries(registry.entries, key)
  {
    hide TwoEntries, Conflicts;
    ConflictsIff(registry, key);
  }

  /** The keys of a mapping in upper case and the values that are kept, the last of equal keys
      winning. */
  function UpperKeys(overrides: seq<(string, string)>, keep: string -> bool): map<string, string> {
    if overrides == [] then map[]
    else
      var last := overrides[|overrides| - 1];
      var before := UpperKeys(overrides[..|overrides| - 1], keep);
      if keep(last.1) then before[UpperAll(last.0) := last.1] else before
  }

  predicate IsMode(value: string) {
    value == "switch" || value == "light"
  }

  predicate AnyMode(value: string) {
    true
  }

  /** The entry at `i` is kept and is for `key`, however that is written. */
  predicate EntryFor(overrides: seq<(string, string)>, keep: string -> bool, key: string, i: int) {
    0 <= i < |overrides| && UpperAll(overrides[i].0) == key && keep(overrides[i].1)
  }

  /** It is the last one. */
  ghost predicate LastEntry(overrides: seq<(string, string)>, keep: string -> bool, key: string, i: int) {
    EntryFor(overrides, keep, key, i) && forall j :: i < j ==> !EntryFor(overrides, keep, key, j)
  }

  /** The mapping holds exactly the last kept entry of each key. */
  ghost predicate HoldsLast(overrides: seq<(string, string)>, keep: string -> bool, m: map<string, string>) {
    && (forall key :: key in m ==> exists i :: LastEntry(overrides, keep, key, i))
    && forall key, i :: LastEntry(overrides, keep, key, i) ==> key in m && m[key] == overrides[i].1
  }

  lemma {:induction false} UpperKeysHoldLast(overrides: seq<(string, string)>, keep: string -> bool)
    ensures HoldsLast(overrides, keep, UpperKeys(overrides, keep))
  {
    if overrides != [] {
      var n := |overrides| - 1;
      var front, m := overrides[..n], UpperKeys(overrides, keep);
      UpperKeysHoldLast(front, keep);
      forall key | key in m ensures exists i :: LastEntry(overrides, keep, key, i) {
        if EntryFor(overrides, keep, key, n) {
          assert LastEntry(overrides, keep, key, n);
        } else {
          var i :| LastEntry(front, keep, key, i);
          EarlierEntry(overrides, keep, key, i);
        }
      }
      forall key, i | LastEntry(overrides, keep, key, i) ensures key in m && m[key] == overrides[i].1 {
        if i < n { EarlierEntry(overrides, keep, key, i); }
      }
    }
  }

  lemma EarlierEntry(overrides: seq<(string, string)>, keep: string -> bool, key: string, i: int)
    requires overrides != [] && i < |overrides| - 1
    ensures var n := |overrides| - 1;
      LastEntry(overrides, keep, key, i) <==>
      LastEntry(overrides[..n], keep, key, i) && !EntryFor(overrides, keep, key, n)
  {
    var n := |overrides| - 1;
    var front := overrides[..n];
    assert forall j :: j < n ==> (EntryFor(overrides, keep, key, j) <==> EntryFor(front, keep, key, j));
    if LastEntry(overrides, keep, key, i) {
      assert !EntryFor(overrides, keep, key, n);
      forall j | i < j ensures !EntryFor(front, keep, key, j) {
        assert j < n ==> !EntryFor(overrides, keep, key, j);
      }
    }
    if LastEntry(front, keep, key, i) && !EntryFor(overrides, keep, key, n) {
      forall j | i < j ensures !EntryFor(overrides, keep, key, j) {
        assert j < n ==> !EntryFor(front, keep, key, j);
      }
    }
  }

  /** The device at `i` is `key`, however that is written, and gets a mode that exists. */
  predicate ChoiceAt(overrides: seq<(string, string)>, key: string, i: int) {
    && 0 <= i < |overrides| && UpperAll(overrides[i].0) == key
    && (overrides[i].1 == "switch" || overrides[i].1 == "light")
  }

  ghost predicate LastChoice(overrides: seq<(string, string)>, key: string, i: int) {
    ChoiceAt(overrides, key, i) && forall j :: i < j ==> !ChoiceAt(overrides, key, j)
  }

  predicate NamedAt(overrides: seq<(string, string)>, key: string, i: int) {
    0 <= i < |overrides| && UpperAll(overrides[i].0) == key
  }

  ghost predicate LastNamed(overrides: seq<(string, string)>, key: string, i: int) {
    NamedAt(overrides, key, i) && forall j :: i < j ==> !NamedAt(overrides, key, j)
  }

  /** Every device has the last mode that was chosen for it, and no other has one. */
  ghost predicate ChosenModes(overrides: seq<(string, string)>, m: map<string, string>) {
    && (forall key :: key in m ==> exists i :: LastChoice(overrides, key, i))
    && forall key, i :: LastChoice(overrides, key, i) ==> key in m && m[key] == overrides[i].1
  }

  /** The same with whatever was chosen last. */
  ghost predicate StoredModes(overrides: seq<(string, string)>, m: map<string, string>) {
    && (forall key :: key in m ==> exists i :: LastNamed(overrides, key, i))
    && forall key, i :: LastNamed(overrides, key, i) ==> key in m && m[key] == overrides[i].1
  }

  lemma ModesAreLast(overrides: seq<(string, string)>)
    ensures ChosenModes(overrides, UpperKeys(overrides, IsMode))
    ensures StoredModes(overrides, UpperKeys(overrides, AnyMode))
  {
    hide UpperAll, UpperKeys;
    UpperKeysHoldLast(overrides, IsMode);
    UpperKeysHoldLast(overrides, AnyMode);
    assert forall key, i :: ChoiceAt(overrides, key, i) <==> EntryFor(overrides, IsMode, key, i);
    assert forall key, i :: NamedAt(overrides, key, i) <==> EntryFor(overrides, AnyMode, key, i);
    assert forall key, i :: LastEntry(overrides, IsMode, key, i) ==> LastChoice(overrides, key, i);
    assert forall key, i :: LastEntry(overrides, AnyMode, key, i) ==> LastNamed(overrides, key, i);
    assert forall key, i :: LastChoice(overrides, key, i) ==> LastEntry(overrides, IsMode, key, i);
    assert forall key, i :: LastNamed(overrides, key, i) ==> LastEntry(overrides, AnyMode, key, i);
  }

  /** Observed topics that are not the canonical topic of the device they are observed for. */
  function Candidates(plan: Plan, ix: Index): set<string> {
    set u, t | u in ix.observed && t in ix.observed[u] && Stale(plan, u, t) :: t
  }

  predicate Stale(plan: Plan, uniqueId: string, topic: string) {
    BusOf(uniqueId) in plan.inv.devices && CanonicalTopic(plan, BusOf(uniqueId)) != Some(topic)
  }

  /** An id of a known device whose topic this is not. */
  predicate Misplaced(plan: Plan, uniqueId: string, topic: string) {
    var key := BusOf(uniqueId);
    key in plan.inv.devices && !IsTopicOf(plan, key, topic)
  }

  lemma StaleIffMisplaced(plan: Plan, uniqueId: string, topic: string)
    ensures Stale(plan, uniqueId, topic) <==> Misplaced(plan, uniqueId, topic)
  {
    hide LightTopic, SwitchTopic, CoverTopic, CanonicalTopic, IsLight, IsSwitch, IsCover, BusOf;
    if BusOf(uniqueId) in plan.inv.devices { TopicIs(plan, BusOf(uniqueId)); }
  }

  lemma CandidateIff(plan: Plan, ix: Index, topic: string)
    ensures topic in Candidates(plan, ix) <==> exists u :: topic in ObservedOf(ix, u) && Misplaced(plan, u, topic)
  {
    hide Stale, Misplaced;
    if topic in Candidates(plan, ix) {
      var u :| u in ix.observed && topic in ix.observed[u] && Stale(plan, u, topic);
      StaleIffMisplaced(plan, u, topic);
      assert topic in ObservedOf(ix, u);
    }
    if u :| topic in ObservedOf(ix, u) && Misplaced(plan, u, topic) {
      StaleIffMisplaced(plan, u, topic);
    }
  }

  /** The topic is listed under a unique id it is not bound to, and misplaced there. */
  ghost predicate LeftOver(plan: Plan, ix: Index, topic: string) {
    exists u :: topic in ObservedOf(ix, u) && !Bound(ix, u, topic) && Misplaced(plan, u, topic)
  }

  /** A topic is a candidate iff it is not the topic of the device it is bound to, or was left over from
      an earlier binding. */
  lemma CandidateIffBoundOrLeftOver(plan: Plan, ix: Index, topic: string)
    requires Agrees(ix)
    ensures topic in Candidates(plan, ix) <==>
      (topic in ix.ids && Misplaced(plan, ix.ids[topic], topic)) || LeftOver(plan, ix, topic)
  {
    hide Misplaced, Candidates;
    CandidateIff(plan, ix, topic);
    if topic in ix.ids { assert topic in ObservedOf(ix, ix.ids[topic]) && Bound(ix, ix.ids[topic], topic); }
  }

  /** A repair takes its topic off the candidates iff no other unique id still lists it: a left-over
      topic is offered again after every repair. */
  lemma RepairRemovesIff(plan: Plan, ix: Index, topic: string)
    requires Agrees(ix)
    ensures topic !in Candidates(plan, Forget(ix, topic)) <==> !LeftOver(plan, ix, topic)
    ensures Forget(Forget(ix, topic), topic) == Forget(ix, topic)
  {
    hide Misplaced, Candidates;
    var next := Forget(ix, topic);
    CandidateIff(plan, next, topic);
    forall u ensures topic in ObservedOf(next, u) <==> topic in ObservedOf(ix, u) && !Bound(ix, u, topic) {
      SeeMeans(ix, topic, Cleared, u, topic);
    }
  }

  /** While every topic keeps its unique id, a topic can be cleared exactly when it announces a known
      device whose topic it is not: never the topic of the device it announces. */
  lemma CandidatesExactly(plan: Plan, ix: Index, topic: string)
    requires Inverse(ix)
    ensures topic in Candidates(plan, ix) <==>
      topic in ix.ids && BusOf(ix.ids[topic]) in plan.inv.devices
      && CanonicalTopic(plan, BusOf(ix.ids[topic])) != Some(topic)
    ensures topic in Candidates(plan, ix) <==> topic in ix.ids && Misplaced(plan, ix.ids[topic], topic)
  {
    hide Candidates, BusOf, CanonicalTopic, IsTopicOf;
    CandidateIffBoundOrLeftOver(plan, ix, topic);
    if topic in ix.ids { StaleIffMisplaced(plan, ix.ids[topic], topic); }
  }

  predicate WrittenIn(written: set<Document>, plan: Plan, key: string, mode: string)
    requires key in plan.inv.devices
  {
    var payload := Payload(plan.inv.devices[key], plan.gatewayId, mode, Identifier(plan.registry, key));
    payload.Some? && payload.value in written
  }

  /** The device is in conflict or unsupported, or a document for it was written, whatever its mode
      was then. */
  ghost predicate Served(written: set<Document>, plan: Plan, key: string) {
    key in plan.inv.devices &&
    (Conflicts(plan.registry, key) || Component(plan.inv.devices[key].kind, "switch").None?
     || exists mode :: WrittenIn(written, plan, key, mode))
  }

  ghost predicate AllServed(written: set<Document>, plan: Plan, keys: seq<string>) {
    forall i :: 0 <= i < |keys| ==> Served(written, plan, keys[i])
  }

  /** What was written stays written. */
  lemma StillServed(before: set<Document>, written: set<Document>, plan: Plan, keys: seq<string>)
    requires before <= written && AllServed(before, plan, keys)
    ensures AllServed(written, plan, keys)
  {
    hide Conflicts, Payload, Identifier, Component;
    forall i | 0 <= i < |keys| ensures Served(written, plan, keys[i]) {
      if mode :| keys[i] in plan.inv.devices && WrittenIn(before, plan, keys[i], mode) {
        assert WrittenIn(written, plan, keys[i], mode);
      }
    }
  }

  lemma NoneServed(written: set<Document>, plan: Plan)
    ensures AllServed(written, plan, [])
  {
  }

  lemma OneMoreServed(written: set<Document>, plan: Plan, keys: seq<string>, n: nat)
    requires n < |keys| && AllServed(written, plan, keys[..n]) && Served(written, plan, keys[n])
    ensures AllServed(written, plan, keys[..n + 1])
  {
  }

  datatype RepairOutcome = ValueError | ClearFailed | SyncFailed | Repaired

  class DeviceManager {
    const gatewayId: string
    var typeOverrides: map<string, string>
    var inv: Inventory
    var subscriptions: nat
    var conflicts: set<string>
    var index: Index
    var published: nat
    var reconcilePending: bool

    // The retained documents of the broker, and every document this manager has written.
    ghost var store: Store
    ghost var written: set<Document>
    // What has been received from others, and the reconcile tasks.
    ghost var deliveries: nat
    // Steps others than callbacks took while somebody waited.
    ghost var foreign: nat
    ghost var poorReceived: nat
    ghost var births: nat
    ghost var created: nat
    ghost var finished: nat

    ghost predicate Valid()
      reads this
    {
      && Listed(inv)
      && Agrees(index)
      && Doubled(index) <= conflicts
      && (forall d :: d in written ==> Harmless(d))
      && created <= poorReceived + births
      && created == finished + if reconcilePending then 1 else 0
    }

    function PlanNow(registry: Registry): Plan
      reads this
    {
      Plan(inv, typeOverrides, gatewayId, registry)
    }

    constructor (gatewayId: string, overrides: seq<(string, string)>, ghost store: Store)
      ensures Valid() && this.store == store && subscriptions == 0 && this.gatewayId == gatewayId
      ensures inv == Inventory(map[], []) && index == Index(map[], map[]) && !reconcilePending
      ensures conflicts == {} && published == 0 && created == 0 && poorReceived == 0 && births == 0
      ensures StoredModes(overrides, typeOverrides)
    {
      this.gatewayId, typeOverrides := gatewayId, UpperKeys(overrides, AnyMode);
      inv, subscriptions, conflicts, index := Inventory(map[], []), 0, {}, Index(map[], map[]);
      published, reconcilePending := 0, false;
      this.store, written := store, {};
      deliveries, foreign, poorReceived, births, created, finished := 0, 0, 0, 0, 0, 0;
      ModesAreLast(overrides);
    }

    // ---------------------------------------------------------------- callbacks

    /** Only callbacks ran. */
    twostate predicate CallbacksOnly()
      reads this
    {
      && unchanged(`typeOverrides, `inv, `subscriptions, `published, `store, `written, `finished, `foreign)
      && old(conflicts) <= conflicts
      && (old(reconcilePending) ==> reconcilePending)
      && old(deliveries) <= deliveries
      && (deliveries == old(deliveries) ==> index == old(index) && conflicts == old(conflicts))
    }

    /** Coalesced: nothing is created while a task is pending. */
    method ScheduleReconciliation()
      modifies `reconcilePending, `created
      ensures reconcilePending
      ensures created == old(created) + if old(reconcilePending) then 0 else 1
    {
      if reconcilePending { return; }
      reconcilePending := true;
      created := created + 1;
    }

    /** The bus id of a document whose unique id has more than one topic now. */
    static function NewConflicts(ix: Index, message: Message): set<string> {
      if BindsSome(message) && |ObservedOf(ix, message.document.uniqueId.value)| > 1
      then {BusOf(message.document.uniqueId.value)}
      else {}
    }

    /** Keep the indices, and remember a unique id that more than one topic announces. */
    method Note(topic: string, message: Message)
      requires Valid()
      modifies `index, `conflicts, `deliveries
      ensures Valid() && CallbacksOnly() && deliveries > old(deliveries)
      ensures index == See(old(index), topic, message)
      ensures conflicts == old(conflicts) + NewConflicts(index, message)
    {
      hide Agrees, Listed, Doubled, BusOf, Harmless, Bind, Forget, ObservedOf;
      SeeKeepsAgreement(index, topic, message);
      SeeDoubles(index, topic, message);
      deliveries := deliveries + 1;
      match message
      case Cleared => index := Forget(index, topic);
      case Malformed =>
      case Doc(d) =>
        if d.uniqueId.Some? && IsScsGate(d.uniqueId.value) {
          var u := d.uniqueId.value;
          index := Bind(index, topic, u);
          if |ObservedOf(index, u)| > 1 { conflicts := conflicts + {BusOf(u)}; }
        }
    }

    /** An origin that is no object, in a document that gets as far as its origin. */
    predicate Raises(document: Document)
      requires document.uniqueId.Some?
      reads this
    {
      && BusOf(document.uniqueId.value) in inv.devices && IsOwnId(document.uniqueId)
      && document.device.Some? && document.origin == NotAnObject
    }

    /** `own` says that this is the echo of something the manager wrote. */
    method DiscoveryReceived(topic: string, message: Message, ghost own: bool) returns (escaped: bool)
      requires Valid()
      requires own ==> message.Cleared? || (message.Doc? && message.document in written)
      modifies this
      ensures Valid() && CallbacksOnly() && births == old(births)
      ensures index == See(old(index), topic, message) && conflicts == old(conflicts) + NewConflicts(index, message)
      ensures escaped <==> message.Doc? && message.document.uniqueId.Some? && Raises(message.document)
      ensures poorReceived == old(poorReceived) + if !own && message.Doc? && CanBePoor(message.document) then 1 else 0
      ensures message.Doc? && CanBePoor(message.document) && BusOf(message.document.uniqueId.value) in inv.devices ==>
        reconcilePending
      ensures own ==> !escaped && created == old(created) && reconcilePending == old(reconcilePending)
      ensures created == old(created)
        + if message.Doc? && CanBePoor(message.document) && BusOf(message.document.uniqueId.value) in inv.devices
             && !old(reconcilePending) then 1 else 0
    {
      hide Doubled, Agrees, Listed, Judge, BusOf, IsScsGate, See;
      escaped := false;
      Note(topic, message);
      if !own && message.Doc? && CanBePoor(message.document) { poorReceived := poorReceived + 1; }
      if message.Doc? && message.document.uniqueId.Some? {
        var bus := BusOf(message.document.uniqueId.value);
        if bus in inv.devices {
          var verdict := Judge(message.document, bus);
          JudgeMeans(message.document, bus);
          BusOfMeans(message.document.uniqueId.value);
          UpperTwice(bus);
          if verdict == Escapes { escaped := true; }
          if verdict == Poor { ScheduleReconciliation(); }
        }
      }
    }

    method BirthReceived(payload: string)
      requires Valid()
      modifies this
      ensures Valid() && CallbacksOnly() && index == old(index)
      ensures LowerAll(payload) == "online" ==> reconcilePending
      ensures births == old(births) + if LowerAll(payload) == "online" then 1 else 0
      ensures created == old(created) + if LowerAll(payload) == "online" && !old(reconcilePending) then 1 else 0
    {
      if LowerAll(payload) == "online" {
        births := births + 1;
        ScheduleReconciliation();
      }
    }

    /** Whatever arrives during an await. */
    method CallbacksRun()
      requires Valid()
      modifies this
      ensures Valid() && CallbacksOnly()
    {
      var arrivals: nat := *;
      while arrivals > 0
        invariant Valid() && CallbacksOnly()
      {
        var birth: bool := *;
        if birth {
          var payload: string := *;
          BirthReceived(payload);
        } else {
          var topic: string, message: Message := *, *;
          ghost var own: bool := *;
          own := own && (message.Cleared? || (message.Doc? && message.document in written));
          var _ := DiscoveryReceived(topic, message, own);
        }
        arrivals := arrivals - 1;
      }
    }

    // ---------------------------------------------------------------- other code

    /** The inventory query, and the conflicts known before the registry is looked at. */
    method Refresh(items: Inventory)
      requires Valid() && Listed(items)
      modifies `inv, `conflicts
      ensures Valid() && inv == items && conflicts == Doubled(index)
    {
      inv := items;
      conflicts := Doubled(index);
    }

    /** The broker retains one of our documents. */
    ghost method Land(topic: string, document: Document)
      requires Valid() && Harmless(document)
      modifies `store, `written
      ensures Valid() && store == old(store)[topic := document] && written == old(written) + {document}
    {
      store := store[topic := document];
      written := written + {document};
    }

    /** Another client changes a retained document. */
    ghost method WriteByOthers(topic: string, document: Option<Document>)
      requires Valid()
      modifies `store
      ensures Valid()
      ensures store == if document.Some? then old(store)[topic := document.value] else old(store) - {topic}
    {
      store := if document.Some? then store[topic := document.value] else store - {topic};
    }

    method ForgetNote(topic: string)
      requires Valid()
      modifies `index
      ensures Valid() && index == Forget(old(index), topic) && topic !in index.ids
    {
      hide Listed;
      SeeKeepsAgreement(index, topic, Cleared);
      ForgetDoubles(index, topic);
      index := Forget(index, topic);
    }

    /** The reconcile task is over. */
    method EndTask()
      requires Valid() && reconcilePending
      modifies `reconcilePending, `finished
      ensures Valid() && !reconcilePending && finished == old(finished) + 1
    {
      reconcilePending := false;
      finished := finished + 1;
    }

    /** A step of another sync, of another repair, of the options flow, of another client, or, unless
        it is the reconcile task that waits (`inTask`), the end of that task. */
    method ForeignStep(inTask: bool)
      requires Valid()
      modifies this
      ensures Valid() && Later(inTask) && foreign == old(foreign) + 1
    {
      hide Doubled, Agrees, Listed, Harmless, Collect;
      var choice: int := *;
      var text: string := *;
      if choice == 0 {
        var devices: seq<Device> := *;
        Refresh(Collect(devices));
      } else if choice == 1 {
        conflicts := conflicts + {text};
      } else if choice == 2 {
        ghost var document: Document := *;
        if Harmless(document) { Land(text, document); }
      } else if choice == 3 {
        published := published + 1;
      } else if choice == 4 {
        subscriptions := *;
      } else if choice == 5 {
        typeOverrides := *;
      } else if choice == 6 {
        ghost var document: Option<Document> := *;
        WriteByOthers(text, document);
      } else if choice == 7 {
        ForgetNote(text);
      } else if reconcilePending && !inTask {
        EndTask();
      }
      foreign := foreign + 1;
    }

    /** What holds across every await; the reconcile task stays the only one while it waits. */
    twostate predicate Later(inTask: bool)
      reads this
    {
      && old(deliveries) <= deliveries && old(foreign) <= foreign && old(written) <= written
      && (inTask && old(reconcilePending) ==> reconcilePending && finished == old(finished))
    }

    /** Nobody but callbacks ran in between. */
    twostate predicate Alone()
      reads this
    {
      foreign == old(foreign)
    }

    /** Whatever happens during an await. */
    method OthersRun(inTask: bool)
      requires Valid()
      modifies this
      ensures Valid() && Later(inTask)
      ensures Alone() ==> CallbacksOnly()
    {
      hide Doubled, Agrees, Listed, Harmless;
      CallbacksRun();
      var steps: nat := *;
      while steps > 0
        invariant Valid() && Later(inTask) && (Alone() ==> CallbacksOnly())
      {
        ForeignStep(inTask);
        CallbacksRun();
        steps := steps - 1;
      }
    }

    // ---------------------------------------------------------------- writing

    /** Publish one document.  A publication that raises may or may not have reached the broker. */
    method Publish(topic: string, document: Document, inTask: bool) returns (sent: bool, ghost landed: bool)
      requires Valid() && Harmless(document)
      modifies this
      ensures Valid() && Later(inTask) && (sent ==> landed) && (landed ==> document in written)
      ensures Alone() ==> unchanged(`inv, `subscriptions, `typeOverrides, `finished)
      ensures Alone() ==> store == if landed then old(store)[topic := document] else old(store)
      ensures Alone() ==> published == old(published) + if sent then 1 else 0
      ensures Alone() ==> old(conflicts) <= conflicts
      ensures Alone() && deliveries == old(deliveries) ==> index == old(index) && conflicts == old(conflicts)
    {
      hide Doubled, Agrees, Listed, Harmless;
      sent := *;
      landed := *;
      landed := landed || sent;
      if landed { Land(topic, document); }
      OthersRun(inTask);
      if sent { published := published + 1; }
    }

    /** One device of a sync. */
    method SyncDevice(items: Inventory, key: string, registry: Registry, inTask: bool)
      returns (sent: bool, ghost landed: bool)
      requires Valid() && key in items.devices
      modifies this
      ensures Valid() && Later(inTask) && (sent ==> landed)
      ensures sent ==> Served(written, Plan(items, map[], gatewayId, registry), key)
      ensures Alone() ==> unchanged(`inv, `subscriptions, `typeOverrides, `finished)
      ensures var plan := Plan(items, old(typeOverrides), gatewayId, registry);
        && (Alone() ==> store == if landed then PublishAll(plan, [key], old(store)) else old(store))
        && (Alone() && sent ==> published == old(published) + CountPublishable(plan, [key]))
      ensures Alone() ==> old(conflicts) + Ambiguous(registry, [key]) <= conflicts
      ensures Alone() && deliveries == old(deliveries) ==>
        index == old(index) && conflicts == old(conflicts) + Ambiguous(registry, [key])
    {
      hide Doubled, Agrees, Listed, Harmless, Conflicts, Topic, Payload, Identifier, Component;
      ghost var plan := Plan(items, typeOverrides, gatewayId, registry);
      assert PublishAll(plan, [], store) == store;
      assert [key][..0] == [];
      sent, landed := true, true;
      if Conflicts(registry, key) {
        conflicts := conflicts + {key};
        return;
      }
      var device, mode := items.devices[key], ModeOf(typeOverrides, key);
      var topic := Topic(device, mode);
      var payload := Payload(device, gatewayId, mode, Identifier(registry, key));
      OwnDocumentsAreNeverPoor(device, gatewayId, mode, Identifier(registry, key), key);
      SupportIgnoresMode(device, mode);
      if topic.Some? && payload.Some? {
        sent, landed := Publish(topic.value, payload.value, inTask);
        assert landed ==> WrittenIn(written, Plan(items, map[], gatewayId, registry), key, mode);
      }
    }

    /** The devices of a sync in order; `reached` of them were dealt with. */
    method SyncDevices(items: Inventory, registry: Registry, inTask: bool) returns (ok: bool, ghost reached: nat)
      requires Valid() && Listed(items)
      modifies this
      ensures Valid() && Later(inTask) && reached <= |items.order| && (ok ==> reached == |items.order|)
      ensures ok ==> AllServed(written, Plan(items, map[], gatewayId, registry), items.order)
      ensures Alone() ==> unchanged(`inv, `subscriptions, `typeOverrides, `finished)
      ensures var plan := Plan(items, old(typeOverrides), gatewayId, registry);
        && (Alone() ==> store == PublishAll(plan, items.order[..reached], old(store)))
        && (Alone() && ok ==> published == old(published) + CountPublishable(plan, items.order))
      ensures Alone() && ok ==> Ambiguous(registry, items.order) <= conflicts
      ensures Alone() && ok && deliveries == old(deliveries) ==>
        index == old(index) && conflicts == old(conflicts) + Ambiguous(registry, items.order)
    {
      hide Valid, Conflicts, PublishAll, CountPublishable, Publishable, Ambiguous, Served, AllServed;
      ghost var plan := Plan(items, typeOverrides, gatewayId, registry);
      ghost var served := Plan(items, map[], gatewayId, registry);
      ok, reached := true, 0;
      PublishNothing(plan, store);
      NoneServed(written, served);
      var i := 0;
      while i < |items.order|
        invariant Valid() && Later(inTask) && ok && i == reached <= |items.order|
        invariant AllServed(written, served, items.order[..i])
        invariant Alone() ==> unchanged(`inv, `subscriptions, `typeOverrides, `finished)
        invariant Alone() ==> store == PublishAll(plan, items.order[..i], old(store))
        invariant Alone() ==> published == old(published) + CountPublishable(plan, items.order[..i])
        invariant Alone() ==> old(conflicts) + Ambiguous(registry, items.order[..i]) <= conflicts
        invariant Alone() && deliveries == old(deliveries) ==>
          index == old(index) && conflicts == old(conflicts) + Ambiguous(registry, items.order[..i])
      {
        OneMore(plan, items.order, i, old(store));
        OrderIsKnown(items, i);
        ghost var before := written;
        ghost var landed;
        ok, landed := SyncDevice(items, items.order[i], registry, inTask);
        if landed { reached := reached + 1; }
        if !ok { return; }
        StillServed(before, written, served, items.order[..i]);
        OneMoreServed(written, served, items.order, i);
        i := i + 1;
      }
      assert items.order[..i] == items.order;
    }

    /** Refresh the inventory and retain a document for every supported device; `answer` is what
        the gateway replies. */
    method AsyncSync(answer: Option<seq<Device>>, registry: Registry, inTask: bool)
      returns (ok: bool, ghost reached: nat)
      requires Valid()
      modifies this
      ensures Valid() && Later(inTask) && (ok ==> answer.Some?)
      ensures ok ==> var items := Collect(answer.value);
        reached == |items.order| && AllServed(written, Plan(items, map[], gatewayId, registry), items.order)
      ensures Alone() ==> unchanged(`subscriptions, `typeOverrides, `finished)
      ensures Alone() && answer.None? ==> inv == old(inv) && store == old(store)
      ensures Alone() && answer.Some? ==> inv == Collect(answer.value) && reached <= |inv.order|
      ensures Alone() && answer.Some? ==> store == PublishAll(PlanNow(registry), inv.order[..reached], old(store))
      ensures Alone() && ok ==> Retained(PlanNow(registry), old(store), store)
      ensures Alone() && ok ==> published == old(published) + CountPublishable(PlanNow(registry), inv.order)
      ensures Alone() && ok ==> Ambiguous(registry, inv.order) <= conflicts
      ensures Alone() && ok && deliveries == old(deliveries) ==>
        index == old(index) && conflicts == Doubled(index) + Ambiguous(registry, inv.order)
    {
      hide Valid, Conflicts, Doubled, PublishAll, CountPublishable, Collect, SyncedFor, Retained, Ambiguous, AllServed;
      ok, reached := false, 0;
      OthersRun(inTask);
      if answer.None? { return; }
      var items := Collect(answer.value);
      Refresh(items);
      ghost var plan := PlanNow(registry);
      ok, reached := SyncDevices(items, registry, inTask);
      assert items.order[..|items.order|] == items.order;
      PublishAllSyncs(plan, items.order, old(store));
      if Alone() && ok { SyncRetains(plan, old(store), store); }
    }

    // ---------------------------------------------------------------- life cycle

    /** `mqtt.async_subscribe` of one topic. */
    method Subscribe(inTask: bool) returns (ok: bool)
      requires Valid()
      modifies this
      ensures Valid() && Later(inTask)
      ensures Alone() ==> unchanged(`inv, `store, `published, `typeOverrides, `finished)
      ensures Alone() ==> subscriptions == old(subscriptions) + if ok then 1 else 0
    {
      hide Doubled, Agrees, Listed;
      OthersRun(inTask);
      ok := *;
      if ok { subscriptions := subscriptions + 1; }
    }

    method AsyncStop()
      requires Valid()
      modifies `subscriptions
      ensures Valid() && subscriptions == 0
    {
      subscriptions := 0;
    }

    /** Subscribe before the first sync; whatever fails, nothing stays subscribed. */
    method AsyncStart(answer: Option<seq<Device>>, registry: Registry, inTask: bool) returns (ok: bool)
      requires Valid()
      modifies this
      ensures Valid() && Later(inTask) && (!ok ==> subscriptions == 0)
      ensures Alone() && ok ==> subscriptions == old(subscriptions) + 2
      ensures Alone() && ok ==> Retained(PlanNow(registry), old(store), store)
    {
      hide Doubled, Agrees, Listed, Retained;
      ok := Subscribe(inTask);
      if ok { ok := Subscribe(inTask); }
      if ok {
        ghost var reached;
        ok, reached := AsyncSync(answer, registry, inTask);
      }
      if !ok { AsyncStop(); }
    }

    /** Subscriptions lost in an outage are made again, others are left alone. */
    method AsyncEnsureStarted(answer: Option<seq<Device>>, registry: Registry, inTask: bool) returns (ok: bool)
      requires Valid()
      modifies this
      ensures Valid() && Later(inTask)
      ensures Alone() ==> subscriptions == if old(subscriptions) != 0 then old(subscriptions) else if ok then 2 else 0
      ensures Alone() && ok ==> Retained(PlanNow(registry), old(store), store)
    {
      hide Doubled, Agrees, Listed, Retained;
      if subscriptions != 0 {
        ghost var reached;
        ok, reached := AsyncSync(answer, registry, inTask);
      } else {
        ok := AsyncStart(answer, registry, inTask);
      }
    }

    /** The task a schedule created; whatever runs while it works, no other is created. */
    method Reconcile(answer: Option<seq<Device>>, registry: Registry) returns (ok: bool)
      requires Valid() && reconcilePending
      modifies this
      ensures Valid() && !reconcilePending
      ensures created == old(created) && finished == old(finished) + 1
      ensures Alone() && ok ==> Retained(PlanNow(registry), old(store), store)
    {
      hide Doubled, Agrees, Listed, Retained;
      ok := AsyncEnsureStarted(answer, registry, true);
      EndTask();
    }

    /** The overrides become the last valid choice of every device, whatever there was before. */
    method SetTypeOverrides(overrides: seq<(string, string)>)
      requires Valid()
      modifies `typeOverrides
      ensures Valid() && ChosenModes(overrides, typeOverrides)
    {
      typeOverrides := UpperKeys(overrides, IsMode);
      ModesAreLast(overrides);
    }

    // ---------------------------------------------------------------- guided repair

    function RepairCandidates(registry: Registry): set<string>
      reads this
    {
      Candidates(PlanNow(registry), index)
    }

    /** The topic was announced for a known device, and is not its topic. */
    ghost predicate Repairable(registry: Registry, topic: string)
      reads this
    {
      exists u :: topic in ObservedOf(index, u) && Misplaced(PlanNow(registry), u, topic)
    }

    /** The last document of the topic was for the known device whose topic it is. */
    predicate IsInPlace(registry: Registry, topic: string)
      reads this
    {
      && topic in index.ids && BusOf(index.ids[topic]) in inv.devices
      && IsTopicOf(PlanNow(registry), BusOf(index.ids[topic]), topic)
    }

    /** Clear a retained topic that was shown to be stale, then sync. */
    method AsyncClearStaleTopic(topic: string, answer: Option<seq<Device>>, registry: Registry)
      returns (outcome: RepairOutcome)
      requires Valid()
      modifies this
      ensures Valid() && Later(false)
      ensures outcome == ValueError <==> !old(Repairable(registry, topic))
      ensures Inverse(old(index)) && old(IsInPlace(registry, topic)) ==> outcome == ValueError
      ensures outcome == ValueError ==> unchanged(this)
      ensures Alone() ==> unchanged(`subscriptions, `typeOverrides, `finished)
      ensures Alone() && outcome == ClearFailed ==>
        inv == old(inv) && (store == old(store) || store == old(store) - {topic})
      ensures Alone() && outcome == Repaired ==> Retained(PlanNow(registry), old(store) - {topic}, store)
      ensures Alone() && outcome == Repaired && deliveries == old(deliveries) ==>
        index == Forget(old(index), topic) && topic !in index.ids
    {
      hide Doubled, Agrees, Listed, Retained, Candidates;
      CandidateIff(PlanNow(registry), index, topic);
      if topic !in RepairCandidates(registry) { return ValueError; }
      var sent: bool, landed: bool := *, *;
      if sent || landed { WriteByOthers(topic, None); }
      OthersRun(false);
      if !sent { return ClearFailed; }
      ForgetNote(topic);
      ghost var reached;
      var ok: bool;
      ok, reached := AsyncSync(answer, registry, false);
      outcome := if ok then Repaired else SyncFailed;
    }
  }

  /** A cleared topic comes back only if it is the topic of a device that is published. */
  lemma ClearedTopicIsGone(plan: Plan, before: Store, after: Store, topic: string)
    requires Retained(plan, before - {topic}, after)
    ensures topic in after <==> exists key :: OwnTopic(plan, key, topic)
  {
    hide OwnTopic;
  }

  /** After a re-binding, the canonical topic of a device is offered for clearing: the entry left
      behind under the unique id of another known device makes it look stale. */
  lemma ReboundTopicLooksStale(plan: Plan, ix: Index, topic: string, message: Message)
    requires Agrees(ix) && Rebinds(ix, topic, message) && Misplaced(plan, ix.ids[topic], topic)
    ensures topic in Candidates(plan, See(ix, topic, message))
    ensures See(ix, topic, message).ids[topic] == message.document.uniqueId.value
  {
    var before, next := ix.ids[topic], See(ix, topic, message);
    assert topic in ObservedOf(next, before) && before in next.observed;
    StaleIffMisplaced(plan, before, topic);
  }

  function Light(bus: string): Device {
    Device.Device(bus, Some(3), None, None)
  }

  function Announces(uniqueId: string): Message {
    Doc(Document(Some(uniqueId), "", NoOrigin, None, map[]))
  }

  /** An instance: the topic of light A1 is announced for B2 first and for A1 later. */
  lemma CanonicalTopicIsOffered()
    ensures var plan := Plan(Inventory(map["A1" := Light("A1"), "B2" := Light("B2")], ["A1", "B2"]),
                             map[], "", Registry([], map[]));
      var topic := TopicFor("light", "A1");
      var ix := See(Index(map[], map[]), topic, Announces("scsgate_B2"));
      var next := See(ix, topic, Announces("scsgate_A1"));
      CanonicalTopic(plan, "A1") == Some(topic) && BusOf(next.ids[topic]) == "A1" && topic in Candidates(plan, next)
  {
    hide Candidates;
    var plan := Plan(Inventory(map["A1" := Light("A1"), "B2" := Light("B2")], ["A1", "B2"]),
                     map[], "", Registry([], map[]));
    var topic := TopicFor("light", "A1");
    BusNames();
    TopicNames();
    var ix := See(Index(map[], map[]), topic, Announces("scsgate_B2"));
    assert ix.ids[topic] == "scsgate_B2" && ix.observed["scsgate_B2"] == {topic};
    ReboundTopicLooksStale(plan, ix, topic, Announces("scsgate_A1"));
  }

  lemma BusNames()
    ensures IsScsGate("scsgate_A1") && IsScsGate("scsgate_B2")
    ensures BusOf("scsgate_A1") == "A1" && BusOf("scsgate_B2") == "B2"
  {
    assert "scsgate_A1"[8..] == "A1" && "scsgate_B2"[8..] == "B2";
    assert UpperAll("A1") == "A1" && UpperAll("B2") == "B2";
  }

  lemma TopicNames()
    ensures TopicFor("light", "A1") != TopicFor("light", "B2")
  {
    assert TopicFor("light", "A1")[20] == 'A';
    assert TopicFor("light", "B2")[20] == 'B';
  }

  // ---------------------------------------------------------------- whole runs

  datatype Input =
    | Start(answer: Option<seq<Device>>, registry: Registry)
    | Periodic(answer: Option<seq<Device>>, registry: Registry)
    | TaskRuns(answer: Option<seq<Device>>, registry: Registry)
    | Clear(topic: string, answer: Option<seq<Device>>, registry: Registry)
    | Choose(overrides: seq<(string, string)>)
    | Arrivals
    | WrittenByOthers(topic: string, document: Option<Document>)
    | Stop

  /** Any life of a manager, from its constructor on.  Tasks never outnumber what came from
      outside, one of them at most is pending, and the indices and conflicts stay in step. */
  method Live(gatewayId: string, overrides: seq<(string, string)>, ghost store: Store, inputs: seq<Input>)
    returns (manager: DeviceManager)
    ensures manager.Valid()
    ensures manager.created <= manager.poorReceived + manager.births
    ensures manager.finished <= manager.created <= manager.finished + 1
    ensures Agrees(manager.index) && Doubled(manager.index) <= manager.conflicts
  {
    hide Doubled, Agrees, Listed, Retained, Candidates, Harmless;
    manager := new DeviceManager(gatewayId, overrides, store);
    for i := 0 to |inputs|
      invariant fresh(manager) && manager.Valid()
    {
      manager.OthersRun(false);
      match inputs[i]
      case Start(answer, registry) => var _ := manager.AsyncStart(answer, registry, false);
      case Periodic(answer, registry) => var _ := manager.AsyncEnsureStarted(answer, registry, false);
      case TaskRuns(answer, registry) =>
        if manager.reconcilePending {
          var _ := manager.Reconcile(answer, registry);
        }
      case Clear(topic, answer, registry) => var _ := manager.AsyncClearStaleTopic(topic, answer, registry);
      case Choose(choices) => manager.SetTypeOverrides(choices);
      case Arrivals =>
      case WrittenByOthers(topic, document) => manager.WriteByOthers(topic, document);
      case Stop => manager.AsyncStop();
    }
  }
}
