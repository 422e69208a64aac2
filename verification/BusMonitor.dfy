/** The broker-wide bus monitor of bus_monitor.py: its ring, its counters, its owners and its
export. */
module BusMonitor {
  import opened Common
  import opened Text

  const MAX_PAYLOAD_CHARS := 512
  const MAX_EXPORT_BYTES := 65536
  const MONITORED_TOPICS := 3

  datatype Kind = UartRx | UartTx | UartLog | GatewayError | CommandToGateway | GenericBus | InterpretedState

  datatype BusMessage = BusMessage(
    timestamp: string, topic: string, payload: string, kind: Kind, qos: int, retained: bool, truncated: bool)

  /** `_message_kind` */
  function MessageKind(topic: string, payload: string): Kind {
    if topic == "SCSLOG" then
      var lowered := LowerAll(payload);
      if Contains(lowered, "rx:") then UartRx else if Contains(lowered, "tx:") then UartTx else UartLog
    else if topic == "SCSERROR" then GatewayError
    else if Contains(topic, "/set/") || Contains(topic, "/setlevel/") || Contains(topic, "/setposition/") then
      CommandToGateway
    else if Contains(topic, "/generic/from/") || Contains(topic, "/generic/to/") then GenericBus
    else InterpretedState
  }

  predicate IsUart(kind: Kind) {
    kind in {UartRx, UartTx, UartLog}
  }

  /** Raw UART traffic is what arrives on the topic of the gateway's log, and nothing else. */
  lemma UartIsTheLog(topic: string, payload: string)
    ensures IsUart(MessageKind(topic, payload)) <==> topic == "SCSLOG"
  {
  }

  ghost predicate Holds(s: string, part: string) {
    exists i :: OccursAt(s, part, i)
  }

  ghost predicate IsCommand(topic: string) {
    Holds(topic, "/set/") || Holds(topic, "/setlevel/") || Holds(topic, "/setposition/")
  }

  ghost predicate IsGeneric(topic: string) {
    Holds(topic, "/generic/from/") || Holds(topic, "/generic/to/")
  }

  lemma LogPatterns(payload: string)
    ensures Contains(LowerAll(payload), "rx:") <==> Holds(LowerAll(payload), "rx:")
    ensures Contains(LowerAll(payload), "tx:") <==> Holds(LowerAll(payload), "tx:")
  {
    hide Contains, OccursAt, LowerAll;
    ContainsMeans(LowerAll(payload), "rx:");
    ContainsMeans(LowerAll(payload), "tx:");
  }

  lemma TopicPatterns(topic: string)
    ensures Contains(topic, "/set/") || Contains(topic, "/setlevel/") || Contains(topic, "/setposition/") <==> IsCommand(topic)
    ensures Contains(topic, "/generic/from/") || Contains(topic, "/generic/to/") <==> IsGeneric(topic)
  {
    hide Contains, OccursAt;
    ContainsMeans(topic, "/set/");
    ContainsMeans(topic, "/setlevel/");
    ContainsMeans(topic, "/setposition/");
    ContainsMeans(topic, "/generic/from/");
    ContainsMeans(topic, "/generic/to/");
  }

  /** The kind of a message: on the log topic its text decides, received before sent; elsewhere the topic does. */
  lemma KindMeans(topic: string, payload: string)
    ensures var kind, text := MessageKind(topic, payload), LowerAll(payload);
      && (kind == UartRx <==> topic == "SCSLOG" && Holds(text, "rx:"))
      && (kind == UartTx <==> topic == "SCSLOG" && !Holds(text, "rx:") && Holds(text, "tx:"))
      && (kind == UartLog <==> topic == "SCSLOG" && !Holds(text, "rx:") && !Holds(text, "tx:"))
      && (kind == GatewayError <==> topic == "SCSERROR")
      && (kind == CommandToGateway <==> topic != "SCSLOG" && topic != "SCSERROR" && IsCommand(topic))
      && (kind == GenericBus <==> topic != "SCSLOG" && topic != "SCSERROR" && !IsCommand(topic) && IsGeneric(topic))
  {
    hide Contains, LowerAll, Holds, IsCommand, IsGeneric;
    LogPatterns(payload);
    TopicPatterns(topic);
    LogIsNoError();
  }

  lemma LogIsNoError()
    ensures "SCSLOG" != "SCSERROR"
  {
    assert "SCSLOG"[3] != "SCSERROR"[3];
  }

  // ---------------------------------------------------------------- counting

  function Tally(history: seq<BusMessage>, kind: Kind): nat {
    if history == [] then 0
    else Tally(history[..|history| - 1], kind) + if history[|history| - 1].kind == kind then 1 else 0
  }

  function CountOf(counts: map<Kind, nat>, kind: Kind): nat {
    if kind in counts then counts[kind] else 0
  }

  function SumOfCounts(counts: map<Kind, nat>): nat {
    CountOf(counts, UartRx) + CountOf(counts, UartTx) + CountOf(counts, UartLog) + CountOf(counts, GatewayError)
    + CountOf(counts, CommandToGateway) + CountOf(counts, GenericBus) + CountOf(counts, InterpretedState)
  }

  /** The counts are those of the messages received. */
  ghost predicate Tallies(counts: map<Kind, nat>, history: seq<BusMessage>) {
    forall kind :: CountOf(counts, kind) == Tally(history, kind)
  }

  ghost predicate UartReceived(history: seq<BusMessage>) {
    exists m :: m in history && IsUart(m.kind)
  }

  /** Every message is counted under one kind; an UART message was seen iff one was counted. */
  lemma {:induction false} CountsAddUp(history: seq<BusMessage>)
    ensures |history| == Tally(history, UartRx) + Tally(history, UartTx) + Tally(history, UartLog)
      + Tally(history, GatewayError) + Tally(history, CommandToGateway) + Tally(history, GenericBus)
      + Tally(history, InterpretedState)
    ensures UartReceived(history) <==> Tally(history, UartRx) + Tally(history, UartTx) + Tally(history, UartLog) > 0
  {
    if history != [] {
      var front, last := history[..|history| - 1], history[|history| - 1];
      CountsAddUp(front);
      assert history == front + [last];
    }
  }

  lemma KindCountsAddUp(counts: map<Kind, nat>, history: seq<BusMessage>)
    requires Tallies(counts, history)
    ensures SumOfCounts(counts) == |history|
    ensures UartReceived(history) <==> CountOf(counts, UartRx) + CountOf(counts, UartTx) + CountOf(counts, UartLog) > 0
  {
    hide Tally, CountOf, UartReceived;
    CountsAddUp(history);
  }

  ghost predicate Suffix(part: seq<BusMessage>, whole: seq<BusMessage>) {
    |part| <= |whole| && part == whole[|whole| - |part|..]
  }

  lemma TallyOneMore(counts: map<Kind, nat>, history: seq<BusMessage>, item: BusMessage)
    requires Tallies(counts, history)
    ensures Tallies(counts[item.kind := CountOf(counts, item.kind) + 1], history + [item])
  {
    assert (history + [item])[..|history|] == history;
    forall kind
      ensures CountOf(counts[item.kind := CountOf(counts, item.kind) + 1], kind) == Tally(history + [item], kind)
    {
    }
  }

  lemma UartOneMore(history: seq<BusMessage>, item: BusMessage)
    ensures UartReceived(history + [item]) <==> UartReceived(history) || IsUart(item.kind)
  {
    if IsUart(item.kind) {
      assert item in history + [item];
    } else if UartReceived(history) {
      var m :| m in history && IsUart(m.kind);
      assert m in history + [item];
    }
  }

  lemma SuffixBoth(part: seq<BusMessage>, whole: seq<BusMessage>, item: BusMessage)
    requires Suffix(part, whole)
    ensures Suffix(part + [item], whole + [item])
  {
  }

  lemma SuffixOneMore(part: seq<BusMessage>, whole: seq<BusMessage>, item: BusMessage, n: nat)
    requires Suffix(part, whole)
    ensures Suffix(Last(part + [item], n), whole + [item])
  {
  }

  // ---------------------------------------------------------------- owners

  ghost predicate IsMax(owners: map<string, nat>, limit: nat) {
    (exists o :: o in owners && owners[o] == limit) && forall o :: o in owners ==> owners[o] <= limit
  }

  /** `max(self._owners.values())` */
  method MaxLimit(owners: map<string, nat>) returns (limit: nat)
    requires owners != map[]
    ensures IsMax(owners, limit)
  {
    var first :| first in owners;
    limit := owners[first];
    var rest := owners.Keys - {first};
    while rest != {}
      invariant rest <= owners.Keys
      invariant exists o :: o in owners && owners[o] == limit
      invariant forall o :: o in owners && o !in rest ==> owners[o] <= limit
      decreases |rest|
    {
      var o :| o in rest;
      if owners[o] > limit { limit := owners[o]; }
      rest := rest - {o};
    }
  }

  // ---------------------------------------------------------------- export

  /** `list(messages)[-limit:]` for either sign of the limit. */
  function Selected(messages: seq<BusMessage>, limit: int): seq<BusMessage> {
    if limit > 0 then Last(messages, limit)
    else messages[Min(-limit, |messages|)..]
  }

  /** A positive limit selects as many of the newest messages, zero selects all of them, and a negative
      one all but as many of the oldest. */
  lemma SelectedAre(messages: seq<BusMessage>, limit: int)
    ensures var selected := Selected(messages, limit);
      && Suffix(selected, messages)
      && (limit > 0 ==> |selected| == if limit <= |messages| then limit else |messages|)
      && (limit <= 0 ==> |selected| == if -limit <= |messages| then |messages| + limit else 0)
  {
  }

  function Total(messages: seq<BusMessage>, size: BusMessage -> nat): nat {
    if messages == [] then 0 else size(messages[0]) + Total(messages[1..], size)
  }

  /** The messages whose place in `mask` is true, in order. */
  function Pick(messages: seq<BusMessage>, mask: seq<bool>): (r: seq<BusMessage>)
    requires |messages| == |mask|
    ensures |r| <= |messages|
  {
    if messages == [] then []
    else (if mask[0] then [messages[0]] else []) + Pick(messages[1..], mask[1..])
  }

  /** From the newest message back, each one is taken if it fits beside those already taken. */
  ghost predicate Greedy(messages: seq<BusMessage>, mask: seq<bool>, size: BusMessage -> nat, cap: nat)
    requires |messages| == |mask|
  {
    forall i :: 0 <= i < |mask| ==>
      (mask[i] <==> size(messages[i]) + Total(Pick(messages[i + 1..], mask[i + 1..]), size) <= cap)
  }

  lemma {:induction false} PickTotals(messages: seq<BusMessage>, mask: seq<bool>, size: BusMessage -> nat, i: nat)
    requires |messages| == |mask| && i <= |messages|
    ensures Total(Pick(messages, mask), size) >= Total(Pick(messages[i..], mask[i..]), size)
  {
    if i == 0 {
      assert messages[0..] == messages && mask[0..] == mask;
    } else {
      PickTotals(messages[1..], mask[1..], size, i - 1);
      assert messages[1..][i - 1..] == messages[i..] && mask[1..][i - 1..] == mask[i..];
      PickOne(messages, mask, size);
    }
  }

  lemma PickOne(messages: seq<BusMessage>, mask: seq<bool>, size: BusMessage -> nat)
    requires |messages| == |mask| > 0
    ensures Total(Pick(messages, mask), size)
      == Total(Pick(messages[1..], mask[1..]), size) + if mask[0] then size(messages[0]) else 0
  {
    if mask[0] {
      assert Pick(messages, mask)[1..] == Pick(messages[1..], mask[1..]);
    } else {
      assert Pick(messages, mask) == Pick(messages[1..], mask[1..]);
    }
  }

  /** The export keeps to its cap, and no message it left out could be put back. */
  lemma {:induction false} GreedyIsMaximal(messages: seq<BusMessage>, mask: seq<bool>, size: BusMessage -> nat, cap: nat)
    requires |messages| == |mask| && Greedy(messages, mask, size, cap)
    ensures Total(Pick(messages, mask), size) <= cap
    ensures forall i :: 0 <= i < |mask| && !mask[i] ==> Total(Pick(messages, mask), size) + size(messages[i]) > cap
  {
    forall i | 0 <= i < |mask| && !mask[i]
      ensures Total(Pick(messages, mask), size) + size(messages[i]) > cap
    {
      PickTotals(messages, mask, size, i + 1);
    }
    if messages != [] {
      assert Greedy(messages[1..], mask[1..], size, cap) by {
        forall i | 0 <= i < |mask| - 1
          ensures mask[1..][i] <==>
            size(messages[1..][i]) + Total(Pick(messages[1..][i + 1..], mask[1..][i + 1..]), size) <= cap
        {
          assert messages[1..][i + 1..] == messages[i + 2..] && mask[1..][i + 1..] == mask[i + 2..];
        }
      }
      GreedyIsMaximal(messages[1..], mask[1..], size, cap);
      PickOne(messages, mask, size);
    }
  }

  /** Of two selections that differ, the greedy one keeps the newest message in which they differ,
      if the other one fits at all: it prefers the newest messages. */
  lemma GreedyPrefersTheNewest(
    messages: seq<BusMessage>, mask: seq<bool>, other: seq<bool>, size: BusMessage -> nat, cap: nat, i: nat)
    requires |messages| == |mask| == |other| && Greedy(messages, mask, size, cap)
    requires Total(Pick(messages, other), size) <= cap
    requires i < |mask| && mask[i] != other[i] && mask[i + 1..] == other[i + 1..]
    ensures mask[i] && !other[i]
  {
    if other[i] {
      PickTotals(messages, other, size, i);
      PickOne(messages[i..], other[i..], size);
    }
  }

  lemma GreedyOneMore(messages: seq<BusMessage>, mask: seq<bool>, taken: bool, size: BusMessage -> nat, cap: nat)
    requires |messages| == |mask| + 1 && Greedy(messages[1..], mask, size, cap)
    requires taken <==> size(messages[0]) + Total(Pick(messages[1..], mask), size) <= cap
    ensures Greedy(messages, [taken] + mask, size, cap)
    ensures Pick(messages, [taken] + mask) == (if taken then [messages[0]] else []) + Pick(messages[1..], mask)
  {
    var longer := [taken] + mask;
    assert longer[1..] == mask;
    forall i | 0 <= i < |longer|
      ensures longer[i] <==> size(messages[i]) + Total(Pick(messages[i + 1..], longer[i + 1..]), size) <= cap
    {
      if i > 0 {
        assert messages[1..][i..] == messages[i + 1..] && mask[i..] == longer[i + 1..];
        assert longer[i] == mask[i - 1] && messages[1..][i - 1] == messages[i];
      }
    }
  }

  function CountFalse(mask: seq<bool>): nat {
    if mask == [] then 0 else (if mask[0] then 0 else 1) + CountFalse(mask[1..])
  }

  /** What is exported and what is reported as omitted make up what was selected. */
  lemma {:induction false} NothingVanishes(messages: seq<BusMessage>, mask: seq<bool>)
    requires |messages| == |mask|
    ensures |Pick(messages, mask)| + CountFalse(mask) == |messages|
  {
    if messages != [] { NothingVanishes(messages[1..], mask[1..]); }
  }

  // ---------------------------------------------------------------- the monitor

  class BusMonitor {
    // `isprintable` of a character and the encoded length of a message, whatever they are.
    const printable: char -> bool
    const size: BusMessage -> nat
    var enabled: bool
    var messages: seq<BusMessage>
    var capacity: nat
    var unsubscribers: nat
    var owners: map<string, nat>
    var receivedTotal: nat
    var discardedTotal: nat
    var kindCounts: map<Kind, nat>
    var rawUartSeen: bool
    // Everything received, and everything received since the last clear.
    ghost var history: seq<BusMessage>
    ghost var recent: seq<BusMessage>
    // What was removed without being counted as discarded.
    ghost var cleared: nat
    ghost var dropped: nat

    /** Holds at every await. */
    ghost predicate Ring()
      reads `messages, `capacity, `receivedTotal, `discardedTotal, `kindCounts, `rawUartSeen
      reads `history, `recent, `cleared, `dropped
    {
      && |messages| <= capacity
      && Suffix(messages, recent) && Suffix(recent, history)
      && receivedTotal == |history|
      && receivedTotal == |messages| + discardedTotal + cleared + dropped
      && Tallies(kindCounts, history)
      && (rawUartSeen <==> UartReceived(history))
    }

    /** Holds while no entry is being set up or unloaded. */
    ghost predicate Shared()
      reads `enabled, `unsubscribers, `owners, `capacity
    {
      && (enabled <==> owners != map[])
      && unsubscribers == (if enabled then 3 else 0)
      && (enabled ==> IsMax(owners, capacity))
    }

    constructor (printable: char -> bool, size: BusMessage -> nat)
      ensures Ring() && Shared() && owners == map[] && history == [] && !enabled && capacity == 100
      ensures this.printable == printable && this.size == size
    {
      this.printable, this.size := printable, size;
      enabled, messages, capacity, unsubscribers, owners := false, [], 100, 0, map[];
      receivedTotal, discardedTotal, kindCounts, rawUartSeen := 0, 0, map[], false;
      history, recent, cleared, dropped := [], [], 0, 0;
    }

    /** Only messages arrived. */
    twostate predicate MessagesOnly()
      reads this
    {
      && unchanged(`enabled, `capacity, `unsubscribers, `owners, `cleared, `dropped)
      && old(history) <= history
    }

    /** One more message in the ring and in the counters. */
    method Append(item: BusMessage)
      requires Ring()
      modifies `messages, `receivedTotal, `discardedTotal, `kindCounts, `rawUartSeen, `history, `recent
      ensures Ring() && history == old(history) + [item] && recent == old(recent) + [item]
      ensures messages == Last(old(messages) + [item], capacity)
    {
      hide Tallies, Suffix, CountOf, IsUart, UartReceived, Last;
      if |messages| == capacity { discardedTotal := discardedTotal + 1; }
      messages := Last(messages + [item], capacity);
      receivedTotal := receivedTotal + 1;
      TallyOneMore(kindCounts, history, item);
      UartOneMore(history, item);
      SuffixOneMore(old(messages), recent, item, capacity);
      SuffixBoth(recent, history, item);
      kindCounts := kindCounts[item.kind := CountOf(kindCounts, item.kind) + 1];
      rawUartSeen := rawUartSeen || IsUart(item.kind);
      history := history + [item];
      recent := recent + [item];
    }

    method MessageReceived(timestamp: string, topic: string, payload: string, qos: int, retained: bool)
      returns (ghost item: BusMessage)
      requires Ring()
      modifies `messages, `receivedTotal, `discardedTotal, `kindCounts, `rawUartSeen, `history, `recent
      ensures Ring() && MessagesOnly()
      ensures history == old(history) + [item] && messages == Last(old(messages) + [item], capacity)
      ensures item.topic == topic && item.kind == MessageKind(topic, item.payload)
      ensures |item.payload| == Min(|payload|, 512)
      ensures item.truncated <==> |payload| > 512
      ensures forall i :: 0 <= i < |item.payload| ==>
        item.payload[i] == if printable(payload[i]) then payload[i] else ' '
    {
      hide MessageKind, Ring;
      var text := seq(|payload|, i requires 0 <= i < |payload| => if printable(payload[i]) then payload[i] else ' ');
      var truncated := |text| > MAX_PAYLOAD_CHARS;
      text := if truncated then text[..MAX_PAYLOAD_CHARS] else text;
      var message := BusMessage(timestamp, topic, text, MessageKind(topic, text), qos, retained, truncated);
      Append(message);
      item := message;
    }

    /** Whatever arrives during an await. */
    method MessagesRun()
      requires Ring()
      modifies `messages, `receivedTotal, `discardedTotal, `kindCounts, `rawUartSeen, `history, `recent
      ensures Ring() && MessagesOnly()
    {
      hide Ring;
      var arrivals: nat := *;
      while arrivals > 0
        invariant Ring() && MessagesOnly()
      {
        var timestamp: string, topic: string, payload: string, qos: int, retained: bool := *, *, *, *, *;
        var _ := MessageReceived(timestamp, topic, payload, qos, retained);
        arrivals := arrivals - 1;
      }
    }

    // ---------------------------------------------------------------- owners

    method Clear()
      requires Ring()
      modifies `messages, `recent, `cleared
      ensures Ring() && messages == [] && recent == [] && cleared == old(cleared) + |old(messages)|
    {
      hide Tallies, IsUart;
      cleared := cleared + |messages|;
      messages, recent := [], [];
    }

    /** `deque(messages, maxlen=limit)`; the counters do not see what no longer fits. */
    method Resize(limit: nat)
      requires Ring()
      modifies `messages, `capacity, `dropped
      ensures Ring() && capacity == limit && messages == Last(old(messages), limit)
      ensures dropped == old(dropped) + |old(messages)| - |messages|
    {
      hide Tallies, IsUart;
      if capacity != limit {
        dropped := dropped + |messages| - Min(|messages|, limit);
        messages := Last(messages, limit);
        capacity := limit;
      }
    }

    method AsyncStop()
      requires Ring()
      modifies `unsubscribers, `messages, `recent, `cleared
      ensures Ring() && unsubscribers == 0 && messages == [] && cleared == old(cleared) + |old(messages)|
    {
      hide Ring;
      unsubscribers := 0;
      Clear();
    }

    /** Subscribe to all topics or to none. */
    method AsyncStart() returns (ok: bool)
      requires Ring() && unsubscribers in {0, MONITORED_TOPICS}
      modifies `messages, `receivedTotal, `discardedTotal, `kindCounts, `rawUartSeen, `history, `recent, `unsubscribers
      ensures Ring() && old(history) <= history
      ensures !enabled || old(unsubscribers) != 0 ==> ok && unsubscribers == old(unsubscribers)
      ensures enabled && ok ==> unsubscribers == 3
      ensures !ok ==> unsubscribers == 0
    {
      hide Ring;
      ok := true;
      if !enabled || unsubscribers != 0 { return; }
      for i := 0 to MONITORED_TOPICS
        invariant Ring() && old(history) <= history && ok && unsubscribers == i
      {
        MessagesRun();
        ok := *;
        if !ok {
          unsubscribers := 0;
          return;
        }
        unsubscribers := unsubscribers + 1;
      }
    }

    /** Share the monitor with one more entry.  Only the first can fail, and leaves nothing. */
    method AsyncAcquire(owner: string, limit: nat) returns (ok: bool)
      requires Ring() && Shared()
      modifies this
      ensures Ring() && Shared() && old(history) <= history
      ensures owners == if ok then old(owners)[owner := limit] else map[]
      ensures ok ==> enabled && unsubscribers == 3 && IsMax(owners, capacity)
      ensures !ok ==> old(owners) == map[] && !enabled && unsubscribers == 0
    {
      hide Ring, IsMax;
      owners := owners[owner := limit];
      assert owner in owners;
      var most := MaxLimit(owners);
      Resize(most);
      enabled := true;
      ok := AsyncStart();
      if !ok {
        owners := owners - {owner};
        enabled := owners != map[];
      }
    }

    /** Give an entry's share back; the last one to leave stops the monitor. */
    method AsyncRelease(owner: string)
      requires Ring() && Shared()
      modifies this
      ensures Ring() && Shared() && history == old(history)
      ensures owners == old(owners) - {owner}
      ensures owners == map[] ==> !enabled && unsubscribers == 0 && messages == []
      ensures owners != map[] ==> enabled && IsMax(owners, capacity) && messages == Last(old(messages), capacity)
    {
      hide Ring, IsMax;
      owners := owners - {owner};
      if owners != map[] {
        var most := MaxLimit(owners);
        Resize(most);
        return;
      }
      enabled := false;
      AsyncStop();
    }

    // ---------------------------------------------------------------- export

    /** The newest messages first, skipping those that would pass the cap. */
    method Export(limit: int) returns (serialized: seq<BusMessage>, omitted: nat, ghost mask: seq<bool>)
      requires Ring()
      ensures var selected := Selected(messages, limit);
        |mask| == |selected| && serialized == Pick(selected, mask) && Greedy(selected, mask, size, 65536)
        && |serialized| + omitted == |selected|
      ensures Total(serialized, size) <= 65536
    {
      var selected := Selected(messages, limit);
      serialized, omitted, mask := [], 0, [];
      var usedBytes := 0;
      var i := |selected|;
      assert selected[i..] == [];
      while i > 0
        invariant 0 <= i <= |selected| && |mask| == |selected| - i
        invariant serialized == Pick(selected[i..], mask) && usedBytes == Total(serialized, size)
        invariant Greedy(selected[i..], mask, size, MAX_EXPORT_BYTES)
        invariant |serialized| + omitted == |selected| - i && usedBytes <= MAX_EXPORT_BYTES
      {
        i := i - 1;
        var itemBytes := size(selected[i]);
        ghost var taken := usedBytes + itemBytes <= MAX_EXPORT_BYTES;
        GreedyOneMore(selected[i..], mask, taken, size, MAX_EXPORT_BYTES);
        mask := [taken] + mask;
        if usedBytes + itemBytes > MAX_EXPORT_BYTES {
          omitted := omitted + 1;
        } else {
          serialized := [selected[i]] + serialized;
          usedBytes := usedBytes + itemBytes;
        }
      }
      assert selected[0..] == selected;
    }
  }
}
