/** What the census makes of the replies of the gateway, and which of them raise. */
module CensusReplies {
  import opened Common
  import opened Text
  import opened Parsers
  import opened ParserLines
  import opened ParserRaises

  /** No usable HTTP answer, or the text of one. */
  datatype Reply = NoReply | Body(text: string)

  /** How `async_mqtt_devices` ends: with an error of the gateway, with the uncaught error of the
      parser, or with a device table. */
  datatype Answer = GatewayFails | ParserRaises | Devices(devices: seq<Device>)

  function AnswerOf(reply: Reply): Answer {
    match reply
    case NoReply => GatewayFails
    case Body(text) =>
      match Parse(text)
      case Ok(devices) => Devices(devices)
      case Raised => ParserRaises
  }

  /** How `async_query_devices_with_state` ends. */
  datatype State = Waiting | Complete(devices: seq<Device>) | QueryFails | QueryRaises

  predicate IsWaiting(text: string) {
    Contains(LowerAll(text), "waiting query")
  }

  predicate IsTable(text: string) {
    Contains(LowerAll(text), "ok - list of discovered devices")
  }

  function StateOf(reply: Reply): State {
    match reply
    case NoReply => QueryFails
    case Body(text) =>
      if IsWaiting(text) then Waiting
      else if !IsTable(text) then QueryFails
      else match Parse(text)
        case Ok(devices) => Complete(devices)
        case Raised => QueryRaises
  }

  /** How a poll of `n` queries ends: with the first reply that is not "waiting". */
  function PollEnd(polls: nat -> Reply, n: nat): State {
    if n == 0 then Waiting
    else
      var before := PollEnd(polls, n - 1);
      if before == Waiting then StateOf(polls(n - 1)) else before
  }

  /** A reply raises iff its text has a row with a bus id and a refused number. */
  lemma AnswerRaisesIff(reply: Reply)
    ensures AnswerOf(reply) == ParserRaises <==> reply.Body? && Raises(reply.text)
  {
    hide Parse, Raises;
    if reply.Body? { ParseRaisesIff(reply.text); }
  }

  lemma StateRaisesIff(reply: Reply)
    ensures StateOf(reply) == QueryRaises <==>
      reply.Body? && !IsWaiting(reply.text) && IsTable(reply.text) && Raises(reply.text)
  {
    hide Parse, Raises, IsWaiting, IsTable;
    if reply.Body? { ParseRaisesIff(reply.text); }
  }

  /** The text holds these words, in any case. */
  ghost predicate Says(text: string, words: string) {
    exists i :: OccursAt(LowerAll(text), words, i)
  }

  /** The gateway is still importing its table. */
  ghost predicate SaysWaiting(reply: Reply) {
    reply.Body? && Says(reply.text, "waiting query")
  }

  /** A page that is neither that nor a table, or no page. */
  ghost predicate SaysNothing(reply: Reply) {
    reply.NoReply? || (!Says(reply.text, "waiting query") && !Says(reply.text, "ok - list of discovered devices"))
  }

  /** The finished table. */
  ghost predicate SaysTable(reply: Reply) {
    reply.Body? && !Says(reply.text, "waiting query") && Says(reply.text, "ok - list of discovered devices")
  }

  lemma WordsMean(text: string)
    ensures IsWaiting(text) <==> Says(text, "waiting query")
    ensures IsTable(text) <==> Says(text, "ok - list of discovered devices")
  {
    hide Contains, LowerAll, OccursAt;
    ContainsMeans(LowerAll(text), "waiting query");
    ContainsMeans(LowerAll(text), "ok - list of discovered devices");
  }

  /** How a query ends, reply by reply. */
  lemma StateMeans(reply: Reply, devices: seq<Device>)
    ensures StateOf(reply) == Waiting <==> SaysWaiting(reply)
    ensures StateOf(reply) == QueryFails <==> SaysNothing(reply)
    ensures StateOf(reply) == Complete(devices) <==> SaysTable(reply) && Parse(reply.text) == Ok(devices)
    ensures StateOf(reply) == QueryRaises <==> SaysTable(reply) && Parse(reply.text) == Raised
  {
    hide Parse, IsWaiting, IsTable, Says;
    if reply.Body? { WordsMean(reply.text); }
  }

  /** How any other request ends. */
  lemma AnswerMeans(reply: Reply, devices: seq<Device>)
    ensures AnswerOf(reply) == GatewayFails <==> reply == NoReply
    ensures AnswerOf(reply) == Devices(devices) <==> reply.Body? && Parse(reply.text) == Ok(devices)
    ensures AnswerOf(reply) == ParserRaises <==> reply.Body? && Parse(reply.text) == Raised
  {
    hide Parse;
  }

  /** The first reply that is not "waiting". */
  ghost predicate EndsAt(polls: nat -> Reply, n: nat, i: int) {
    0 <= i < n && !SaysWaiting(polls(i)) && forall j :: 0 <= j < i ==> SaysWaiting(polls(j))
  }

  ghost predicate AllWaiting(polls: nat -> Reply, n: nat) {
    forall i :: 0 <= i < n ==> SaysWaiting(polls(i))
  }

  /** A poll ends as its first reply that is not "waiting" has it. */
  lemma PollMeans(polls: nat -> Reply, n: nat)
    ensures PollEnd(polls, n) == Waiting <==> AllWaiting(polls, n)
    ensures forall i :: EndsAt(polls, n, i) ==> PollEnd(polls, n) == StateOf(polls(i))
  {
    hide StateOf, SaysWaiting, PollEnd;
    PollEndMeans(polls, n);
    forall i | 0 <= i < n ensures SaysWaiting(polls(i)) <==> StateOf(polls(i)) == Waiting { StateMeans(polls(i), []); }
    if i :| EndsAt(polls, n, i) {
      var k :| 0 <= k < n && StateOf(polls(k)) == PollEnd(polls, n) && forall j :: 0 <= j < k ==> StateOf(polls(j)) == Waiting;
    }
  }

  /** What a poll makes of the first reply that is not "waiting". */
  lemma PollEndIs(polls: nat -> Reply, n: nat, i: int)
    requires EndsAt(polls, n, i)
    ensures SaysNothing(polls(i)) ==> PollEnd(polls, n) == QueryFails
    ensures SaysTable(polls(i)) && Parse(polls(i).text).Raised? ==> PollEnd(polls, n) == QueryRaises
    ensures SaysTable(polls(i)) && Parse(polls(i).text).Ok? ==> PollEnd(polls, n) == Complete(Parse(polls(i).text).value)
  {
    hide StateOf, PollEnd, SaysNothing, Parse;
    PollMeans(polls, n);
    StateMeans(polls(i), []);
    if SaysTable(polls(i)) && Parse(polls(i).text).Ok? { StateMeans(polls(i), Parse(polls(i).text).value); }
  }

  lemma {:induction false} PollEndMeans(polls: nat -> Reply, n: nat)
    ensures PollEnd(polls, n) != Waiting ==>
      exists i :: 0 <= i < n && StateOf(polls(i)) == PollEnd(polls, n) && forall j :: 0 <= j < i ==> StateOf(polls(j)) == Waiting
    ensures PollEnd(polls, n) == Waiting ==> forall i :: 0 <= i < n ==> StateOf(polls(i)) == Waiting
  {
    hide StateOf;
    if n > 0 { PollEndMeans(polls, n - 1); }
  }

  /** Once it has ended, a poll does not go on. */
  lemma {:induction false} PollStays(polls: nat -> Reply, i: nat, n: nat)
    requires i <= n && PollEnd(polls, i) != Waiting
    ensures PollEnd(polls, n) == PollEnd(polls, i)
  {
    hide StateOf;
    if i < n { PollStays(polls, i, n - 1); }
  }

  /** A poll ends with the parser's error iff the first reply that is not "waiting" is a table with a
      row that raises. */
  lemma PollRaisesIff(polls: nat -> Reply, n: nat)
    ensures PollEnd(polls, n) == QueryRaises <==>
      exists i :: 0 <= i < n && StateOf(polls(i)) == QueryRaises && forall j :: 0 <= j < i ==> StateOf(polls(j)) == Waiting
  {
    hide StateOf, PollEnd;
    PollEndMeans(polls, n);
    if i :| 0 <= i < n && StateOf(polls(i)) == QueryRaises && forall j :: 0 <= j < i ==> StateOf(polls(j)) == Waiting {
      if k :| 0 <= k < n && StateOf(polls(k)) == PollEnd(polls, n) && forall j :: 0 <= j < k ==> StateOf(polls(j)) == Waiting {
        assert i == k || PollEnd(polls, n) == Waiting;
      }
    }
  }

  const RAISING_LINE := "id=1,type=--5"
  const RAISING_TABLE := ["ok - list of discovered devices", RAISING_LINE]

  /** Such replies exist, as an answer to any request and as a table. */
  lemma RepliesCanRaise()
    ensures AnswerOf(Body(RAISING_LINE)) == ParserRaises
    ensures StateOf(Body(Join(RAISING_TABLE, '\n'))) == QueryRaises
  {
    hide Parse, IsTable, IsWaiting, Join;
    DoubleDashRaises();
    TableTextRaises();
    TableIsTable();
    TableIsNotWaiting();
  }

  lemma TableTextRaises()
    ensures Parse(Join(RAISING_TABLE, '\n')).Raised?
  {
    hide Parse, Join, CleanLine, Collapse, RowRaises, RefusedInt, Strip, FindPairs, ParseRecords;
    TableLines();
    ParseJoined(RAISING_TABLE, '\n');
    assert CollapseAll(RAISING_TABLE) == RAISING_TABLE;
    DoubleDashPairs();
    ShortValues();
    RefusedRow(RAISING_LINE, "1", "--5");
    assert RowRaises(RAISING_TABLE[1]);
    RecordsRaiseIff(RAISING_TABLE);
  }

  lemma TableLines()
    ensures forall i :: 0 <= i < 2 ==> CleanLine(RAISING_TABLE[i]) && Collapse(false, RAISING_TABLE[i]) == RAISING_TABLE[i]
  {
    hide Collapse, CleanLine;
    FirstTableLine();
    SecondTableLine();
  }

  lemma FirstTableLine()
    ensures CleanLine(RAISING_TABLE[0]) && Collapse(false, RAISING_TABLE[0]) == RAISING_TABLE[0]
  {
    hide Collapse, Tidy, Unseparated, Trimmed;
    HeadingIsPlain();
    HeadingIsTidy();
    CollapseTidy(false, RAISING_TABLE[0]);
  }

  lemma HeadingIsPlain()
    ensures Trimmed(RAISING_TABLE[0]) && Unseparated(RAISING_TABLE[0]) && !IsBlank(RAISING_TABLE[0][0])
  {
  }

  lemma HeadingIsTidy()
    ensures Tidy(RAISING_TABLE[0])
  {
  }

  lemma SecondTableLine()
    ensures CleanLine(RAISING_TABLE[1]) && Collapse(false, RAISING_TABLE[1]) == RAISING_TABLE[1]
  {
    hide Collapse, Tidy;
    DoubleDashShape();
    CollapseTidy(false, RAISING_TABLE[1]);
  }

  lemma TableIsTable()
    ensures IsTable(Join(RAISING_TABLE, '\n'))
  {
    var text := Join(RAISING_TABLE, '\n');
    assert RAISING_TABLE[0] <= text;
    assert LowerAll(text)[..|RAISING_TABLE[0]|] == RAISING_TABLE[0];
  }

  lemma JoinTwo(a: string, b: string, separator: char)
    ensures Join([a, b], separator) == a + [separator] + b
  {
    assert [a, b][1..] == [b];
  }

  /** There is no "w" in it. */
  lemma TableIsNotWaiting()
    ensures !IsWaiting(Join(RAISING_TABLE, '\n'))
  {
    hide Contains;
    var text := Join(RAISING_TABLE, '\n');
    JoinTwo(RAISING_TABLE[0], RAISING_LINE, '\n');
    assert forall i :: 0 <= i < |text| ==> Lower(text[i]) != 'w';
    ContainsMeans(LowerAll(text), "waiting query");
    forall i ensures !OccursAt(LowerAll(text), "waiting query", i) {
      FirstOccurs(LowerAll(text), "waiting query", i);
    }
  }

  lemma FirstOccurs(s: string, part: string, i: int)
    requires part != ""
    ensures OccursAt(s, part, i) ==> s[i] == part[0]
  {
    if OccursAt(s, part, i) { assert s[i..i + |part|][0] == s[i]; }
  }
}
