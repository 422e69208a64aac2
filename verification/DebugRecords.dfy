/** The volatile records of the debug monitor: the bounded ring with its counters, the read loop
that fills it, and the byte-capped export. */
module DebugRecords {
  import opened Common
  import opened Framing

  const MAX_EXPORT_BYTES := 65536
  const REPLACEMENT: char := '\U{FFFD}'

  /** The characters a stored text can have. */
  predicate IsGlyph(c: char) {
    ' ' <= c <= '~' || c == REPLACEMENT
  }

  /** Decoding as ASCII with replacement, then "?" for what does not print. */
  function Glyph(b: Byte): (c: char)
    ensures IsGlyph(c)
  {
    if b >= 128 then REPLACEMENT else if 32 <= b < 127 then b as char else '?'
  }

  datatype Kind = ScsTelegram | PicStatus

  datatype Line = Line(kind: Kind, text: string, truncated: bool)

  datatype Record = Record(timestamp: string, line: Line)

  function TextOf(raw: seq<Byte>): (text: string)
    ensures |text| == if |raw| > 512 then 512 else |raw|
    ensures forall i :: 0 <= i < |text| ==> IsGlyph(text[i]) && text[i] == Glyph(raw[i])
  {
    seq(Min(MAX_LINE_CHARS, |raw|), i requires 0 <= i < |raw| => Glyph(raw[i]))
  }

  function LineOf(raw: seq<Byte>, truncated: bool): Line {
    var text := TextOf(raw);
    Line(if "SCS[" <= text then ScsTelegram else PicStatus, text, truncated)
  }

  /** What a raw line is stored as: bytes that print as they are, others as "?", and those that are not
      ASCII as the replacement character; a line that starts with "SCS[" is a telegram. */
  lemma LineMeans(raw: seq<Byte>, truncated: bool, i: nat)
    requires i < |raw| && i < 512
    ensures var line := LineOf(raw, truncated);
      && (line.kind == ScsTelegram <==> |raw| >= 4 && raw[..4] == [83, 67, 83, 91])
      && i < |line.text| && line.truncated == truncated
      && (raw[i] in PRINTING ==> line.text[i] as int == raw[i])
      && (raw[i] < 128 && raw[i] !in PRINTING ==> line.text[i] == '?')
      && (raw[i] >= 128 ==> line.text[i] as int == 0xFFFD)
  {
    var text := TextOf(raw);
    GlyphMeans(raw[i]);
    if |raw| >= 4 {
      GlyphsSpell(raw[0], 83);
      GlyphsSpell(raw[1], 67);
      GlyphsSpell(raw[2], 83);
      GlyphsSpell(raw[3], 91);
      assert raw[..4] == [raw[0], raw[1], raw[2], raw[3]];
      assert "SCS[" <= text <==> text[0] == 'S' && text[1] == 'C' && text[2] == 'S' && text[3] == '[';
    }
  }

  const PRINTING := set b: Byte | 32 <= b <= 126

  lemma GlyphMeans(b: Byte)
    ensures b in PRINTING ==> Glyph(b) as int == b
    ensures b < 128 && b !in PRINTING ==> Glyph(b) == '?'
    ensures b >= 128 ==> Glyph(b) as int == 0xFFFD
  {
  }

  lemma GlyphsSpell(b: Byte, c: Byte)
    requires 32 <= c < 127 && c != 63
    ensures Glyph(b) == c as char <==> b == c
  {
  }

  /** The record a raw line should leave: cut to 512 characters and flagged iff longer. */
  function LinesOf(raws: seq<seq<Byte>>): (lines: seq<Line>)
    ensures |lines| == |raws|
    ensures forall i :: 0 <= i < |raws| ==> lines[i] == LineOf(raws[i], |raws[i]| > 512)
  {
    seq(|raws|, i requires 0 <= i < |raws| => LineOf(raws[i], |raws[i]| > MAX_LINE_CHARS))
  }

  lemma LinesOfConcat(a: seq<seq<Byte>>, b: seq<seq<Byte>>)
    ensures LinesOf(a + b) == LinesOf(a) + LinesOf(b)
  {
  }

  function Lines(records: seq<Record>): (lines: seq<Line>)
    ensures |lines| == |records|
    ensures forall i :: 0 <= i < |records| ==> lines[i] == records[i].line
  {
    seq(|records|, i requires 0 <= i < |records| => records[i].line)
  }

  // ---------------------------------------------------------------- sizes

  function CharJson(c: char): string {
    if c == '"' then "\\\"" else if c == '\\' then "\\\\" else [c]
  }

  /** A JSON string body; control characters never reach it. */
  function StringJson(s: string): string {
    if s == "" then "" else CharJson(s[0]) + StringJson(s[1..])
  }

  function KindName(kind: Kind): string {
    if kind.ScsTelegram? then "scs_telegram" else "pic_status"
  }

  /** The compact JSON object of one record. */
  function RecordJson(r: Record): string {
    "{\"timestamp\":\"" + StringJson(r.timestamp) + "\",\"kind\":\"" + KindName(r.line.kind)
    + "\",\"text\":\"" + StringJson(r.line.text)
    + "\",\"truncated\":" + (if r.line.truncated then "true" else "false") + "}"
  }

  function CharBytes(c: char): nat {
    if c < '\U{80}' then 1 else if c < '\U{800}' then 2 else if c < '\U{10000}' then 3 else 4
  }

  function Utf8Length(s: string): nat {
    if s == "" then 0 else CharBytes(s[0]) + Utf8Length(s[1..])
  }

  function RecordBytes(r: Record): nat {
    Utf8Length(RecordJson(r))
  }

  function TotalBytes(records: seq<Record>): nat {
    if records == [] then 0 else TotalBytes(records[..|records| - 1]) + RecordBytes(records[|records| - 1])
  }

  lemma {:induction false} Utf8Concat(a: string, b: string)
    ensures Utf8Length(a + b) == Utf8Length(a) + Utf8Length(b)
  {
    if a == "" {
      assert a + b == b;
    } else {
      assert (a + b)[1..] == a[1..] + b;
      Utf8Concat(a[1..], b);
    }
  }

  predicate Ascii(s: string) {
    forall i :: 0 <= i < |s| ==> s[i] < '\U{80}'
  }

  lemma {:induction false} AsciiLength(s: string)
    requires Ascii(s)
    ensures Utf8Length(s) == |s|
  {
    if s != "" { AsciiLength(s[1..]); }
  }

  /** A quote and a backslash are escaped, and the replacement character takes three bytes. */
  function TextBytes(text: string): (n: nat)
    ensures n <= 3 * |text|
  {
    if text == "" then 0
    else (if text[0] == '"' || text[0] == '\\' then 2 else if text[0] == REPLACEMENT then 3 else 1) + TextBytes(text[1..])
  }

  lemma {:induction false} TextLength(text: string)
    requires forall i :: 0 <= i < |text| ==> IsGlyph(text[i])
    ensures Utf8Length(StringJson(text)) == TextBytes(text)
  {
    if text != "" {
      TextLength(text[1..]);
      Utf8Concat(CharJson(text[0]), StringJson(text[1..]));
      CharLength(text[0]);
    }
  }

  lemma CharLength(c: char)
    requires IsGlyph(c)
    ensures Utf8Length(CharJson(c)) == if c == '"' || c == '\\' then 2 else if c == REPLACEMENT then 3 else 1
  {
    var json := CharJson(c);
    if |json| == 2 { AsciiLength(json); } else { assert json[1..] == ""; }
  }

  predicate IsStampChar(c: char) {
    '0' <= c <= '9' || c == '-' || c == '+' || c == ':' || c == '.' || c == 'T'
  }

  /** An ISO timestamp: digits and punctuation, with or without microseconds. */
  predicate IsTimestamp(s: string) {
    |s| <= 32 && forall i :: 0 <= i < |s| ==> IsStampChar(s[i])
  }

  lemma {:induction false} PlainJson(s: string)
    requires forall i :: 0 <= i < |s| ==> IsStampChar(s[i])
    ensures StringJson(s) == s && Ascii(s)
  {
    if s != "" { PlainJson(s[1..]); }
  }

  /** What the ring can hold. */
  predicate Storable(r: Record) {
    && IsTimestamp(r.timestamp)
    && |r.line.text| <= MAX_LINE_CHARS
    && forall i :: 0 <= i < |r.line.text| ==> IsGlyph(r.line.text[i])
  }

  lemma LiteralLengths()
    ensures Utf8Length("{\"timestamp\":\"") == 14
    ensures Utf8Length("\",\"kind\":\"") == 10 && Utf8Length("\",\"text\":\"") == 10
    ensures Utf8Length("\",\"truncated\":") == 14 && Utf8Length("}") == 1
    ensures Utf8Length("true") == 4 && Utf8Length("false") == 5
    ensures Utf8Length("scs_telegram") == 12 && Utf8Length("pic_status") == 10
  {
    hide Utf8Length;
    AsciiLength("{\"timestamp\":\"");
    AsciiLength("\",\"kind\":\"");
    AsciiLength("\",\"text\":\"");
    AsciiLength("\",\"truncated\":");
    AsciiLength("}");
    AsciiLength("true");
    AsciiLength("false");
    AsciiLength("scs_telegram");
    AsciiLength("pic_status");
  }

  /** The exact size of a record, byte by byte; none encodes to more than 1634 bytes. */
  lemma RecordIsSmall(r: Record)
    requires Storable(r)
    ensures RecordBytes(r) == 49 + |r.timestamp| + TextBytes(r.line.text)
      + (if r.line.kind == ScsTelegram then 12 else 10) + (if r.line.truncated then 4 else 5)
    ensures RecordBytes(r) <= 1634
  {
    hide Utf8Length, StringJson, TextBytes;
    LiteralLengths();
    PlainJson(r.timestamp);
    AsciiLength(r.timestamp);
    TextLength(r.line.text);
    var s1 := "{\"timestamp\":\"" + StringJson(r.timestamp);
    Utf8Concat("{\"timestamp\":\"", StringJson(r.timestamp));
    var s2 := s1 + "\",\"kind\":\"";
    Utf8Concat(s1, "\",\"kind\":\"");
    var s3 := s2 + KindName(r.line.kind);
    Utf8Concat(s2, KindName(r.line.kind));
    var s4 := s3 + "\",\"text\":\"";
    Utf8Concat(s3, "\",\"text\":\"");
    var s5 := s4 + StringJson(r.line.text);
    Utf8Concat(s4, StringJson(r.line.text));
    var s6 := s5 + "\",\"truncated\":";
    Utf8Concat(s5, "\",\"truncated\":");
    var flag := if r.line.truncated then "true" else "false";
    Utf8Concat(s6, flag);
    Utf8Concat(s6 + flag, "}");
  }

  lemma {:induction false} TotalIsSmall(records: seq<Record>)
    requires forall i :: 0 <= i < |records| ==> Storable(records[i])
    ensures TotalBytes(records) <= 1634 * |records|
  {
    if records != [] {
      TotalIsSmall(records[..|records| - 1]);
      RecordIsSmall(records[|records| - 1]);
    }
  }

  /** `list(records)[-max(0, min(limit, message_limit)):]`; a bound of zero selects everything. */
  function Selected(records: seq<Record>, limit: int, messageLimit: nat): seq<Record> {
    var n := Max(0, Min(limit, messageLimit));
    if n == 0 then records else Last(records, n)
  }

  /** The longest prefix of `selected` that fits into the export. */
  ghost predicate LongestFitting(prefix: seq<Record>, selected: seq<Record>) {
    && prefix <= selected
    && TotalBytes(prefix) <= 65536
    && (|prefix| < |selected| ==> TotalBytes(selected[..|prefix| + 1]) > 65536)
  }

  lemma {:induction false} TotalIsMonotone(records: seq<Record>, n: nat)
    requires n <= |records|
    ensures TotalBytes(records[..n]) <= TotalBytes(records)
  {
    if n < |records| {
      var front := records[..|records| - 1];
      TotalIsMonotone(front, n);
      assert front[..n] == records[..n];
    } else {
      assert records[..n] == records;
    }
  }

  lemma TotalNext(records: seq<Record>, i: nat)
    requires i < |records|
    ensures TotalBytes(records[..i + 1]) == TotalBytes(records[..i]) + RecordBytes(records[i])
    ensures records[..i + 1] == records[..i] + [records[i]]
  {
    hide RecordBytes;
    assert records[..i + 1][..i] == records[..i];
  }

  lemma NothingWeighs()
    ensures TotalBytes([]) == 0
  {
  }

  /** No fitting prefix is longer, and 40 records always fit. */
  lemma LongestFittingIsLongest(prefix: seq<Record>, selected: seq<Record>, n: nat)
    requires LongestFitting(prefix, selected) && n <= |selected|
    ensures TotalBytes(selected[..n]) <= 65536 <==> n <= |prefix|
    ensures (forall i :: 0 <= i < |selected| ==> Storable(selected[i])) ==> |prefix| >= Min(40, |selected|)
  {
    if n <= |prefix| {
      TotalIsMonotone(prefix, n);
      assert prefix[..n] == selected[..n];
    } else {
      TotalIsMonotone(selected[..n], |prefix| + 1);
      assert selected[..n][..|prefix| + 1] == selected[..|prefix| + 1];
    }
    if |prefix| < |selected| && forall i :: 0 <= i < |selected| ==> Storable(selected[i]) {
      TotalIsSmall(selected[..|prefix| + 1]);
    }
  }

  lemma SelectedBounds(records: seq<Record>, limit: int, messageLimit: nat)
    requires |records| <= messageLimit
    ensures limit >= 1 ==> Selected(records, limit, messageLimit) == Last(records, limit)
    ensures limit <= 0 ==> Selected(records, limit, messageLimit) == records
  {
  }

  // ---------------------------------------------------------------- the object

  /** A `bytearray`, edited in place by the framer. */
  class Pending {
    var bytes: seq<Byte>
    // The most bytes it ever held.
    ghost var most: nat

    constructor ()
      ensures bytes == [] && most == 0
    {
      bytes, most := [], 0;
    }

    method Extend(chunk: seq<Byte>)
      modifies this
      ensures bytes == old(bytes) + chunk && most == Max(old(most), |bytes|)
    {
      bytes := bytes + chunk;
      most := Max(most, |bytes|);
    }
  }

  method Now() returns (timestamp: string)
    ensures IsTimestamp(timestamp)
  {
    timestamp := *;
    if !IsTimestamp(timestamp) { timestamp := "1970-01-01T00:00:00+00:00"; }
  }

  method Find(bytes: seq<Byte>, b: Byte) returns (i: int)
    ensures -1 <= i < |bytes|
    ensures i >= 0 ==> bytes[i] == b
    ensures forall j :: 0 <= j < |bytes| && (i < 0 || j < i) ==> bytes[j] != b
  {
    i := 0;
    while i < |bytes|
      invariant 0 <= i <= |bytes|
      invariant forall j :: 0 <= j < i ==> bytes[j] != b
    {
      if bytes[i] == b { return; }
      i := i + 1;
    }
    i := -1;
  }

  lemma {:induction false} CompleteOfUnbroken(run: seq<Byte>, bytes: seq<Byte>)
    requires Unbroken(bytes)
    ensures Complete(run, bytes) == Scan([], run + bytes)
    decreases |bytes|
  {
    if bytes == [] {
      assert run + bytes == run;
    } else {
      CompleteOfUnbroken(run + [bytes[0]], bytes[1..]);
      assert run + [bytes[0]] + bytes[1..] == run + bytes;
    }
  }

  lemma {:induction false} CompleteFirst(run: seq<Byte>, bytes: seq<Byte>, end: nat)
    requires end < |bytes| && Unbroken(bytes[..end]) && IsBreak(bytes[end])
    ensures var s := Complete([], bytes[end + 1..]);
      Complete(run, bytes) == Scan(Flush(run + bytes[..end]) + s.lines, s.rest)
    decreases end
  {
    if end == 0 {
      assert run + bytes[..0] == run;
    } else {
      assert bytes[1..][..end - 1] == bytes[1..end] && bytes[1..][end..] == bytes[end + 1..];
      assert forall i :: 0 <= i < end - 1 ==> bytes[1..][i] == bytes[..end][i + 1];
      CompleteFirst(run + [bytes[0]], bytes[1..], end - 1);
      assert run + [bytes[0]] + bytes[1..end] == run + bytes[..end];
    }
  }

  /** Skipping further breaks at the start changes nothing. */
  lemma {:induction false} CompleteSkips(bytes: seq<Byte>, n: nat)
    requires n <= |bytes| && AllBreaks(bytes[..n])
    ensures Complete([], bytes[n..]) == Complete([], bytes)
    decreases n
  {
    if n > 0 {
      assert IsBreak(bytes[..n][0]);
      assert forall i :: 0 <= i < n - 1 ==> bytes[1..][i] == bytes[..n][i + 1];
      CompleteSkips(bytes[1..], n - 1);
      assert bytes[1..][n - 1..] == bytes[n..];
      var s := Complete([], bytes[1..]);
      assert Complete([], bytes) == Scan([] + s.lines, s.rest);
    }
  }

  method SkipBreaks(bytes: seq<Byte>, from: nat) returns (consume: nat)
    requires from <= |bytes|
    ensures from <= consume <= |bytes| && AllBreaks(bytes[from..consume])
    ensures consume < |bytes| ==> !IsBreak(bytes[consume])
  {
    consume := from;
    while consume < |bytes| && IsBreak(bytes[consume])
      invariant from <= consume <= |bytes|
      invariant forall i :: from <= i < consume ==> IsBreak(bytes[i])
    {
      consume := consume + 1;
    }
  }

  lemma CompleteTakes(bytes: seq<Byte>, end: nat, consume: nat)
    requires end < consume <= |bytes| && Unbroken(bytes[..end]) && IsBreak(bytes[end])
    requires AllBreaks(bytes[end + 1..consume])
    ensures var s := Complete([], bytes[consume..]);
      Complete([], bytes) == Scan(Flush(bytes[..end]) + s.lines, s.rest)
  {
    hide Complete;
    var after := bytes[end + 1..];
    assert after[..consume - end - 1] == bytes[end + 1..consume] && after[consume - end - 1..] == bytes[consume..];
    CompleteSkips(after, consume - end - 1);
    assert [] + bytes[..end] == bytes[..end];
    CompleteFirst([], bytes, end);
  }

  /** One turn of the loop in `_consume_lines`, up to the record: the line before the first break
      and all breaks right behind it are deleted from the pending bytes. */
  method TakeLine(pending: Pending) returns (found: bool, raw: seq<Byte>)
    modifies pending`bytes
    ensures !found ==> unchanged(pending) && Complete([], pending.bytes) == Scan([], pending.bytes)
    ensures found ==> |pending.bytes| < |old(pending.bytes)|
    ensures found ==>
      var s := Complete([], pending.bytes);
      Complete([], old(pending.bytes)) == Scan(Flush(raw) + s.lines, s.rest)
  {
    hide Complete;
    var bytes := pending.bytes;
    var cr := Find(bytes, 13);
    var lf := Find(bytes, 10);
    if cr < 0 && lf < 0 {
      CompleteOfUnbroken([], bytes);
      assert [] + bytes == bytes;
      return false, [];
    }
    var end := if cr < 0 then lf else if lf < 0 then cr else Min(cr, lf);
    raw := bytes[..end];
    var consume := SkipBreaks(bytes, end + 1);
    CompleteTakes(bytes, end, consume);
    pending.bytes := bytes[consume..];
    found := true;
  }

  lemma RecordedStep(done: seq<seq<Byte>>, pending: seq<Byte>, chunks: seq<seq<Byte>>, i: nat)
    requires i < |chunks|
    ensures var s := Overflow(Complete(pending, chunks[i]));
      done + Recorded(pending, chunks[i..]) == (done + s.lines) + Recorded(s.rest, chunks[i + 1..])
  {
    hide Overflow, Complete;
    assert chunks[i..][1..] == chunks[i + 1..] && chunks[i..][0] == chunks[i];
  }

  lemma RecordedEnd(pending: seq<Byte>, chunks: seq<seq<Byte>>)
    ensures Recorded(pending, chunks[|chunks|..]) == Flush(pending)
  {
  }

  lemma NothingBreaks()
    ensures Unbroken([])
  {
  }

  lemma OverflowLine(raw: seq<Byte>)
    requires |raw| > MAX_LINE_CHARS
    ensures [LineOf(raw[..MAX_LINE_CHARS], true)] == LinesOf([raw])
  {
    assert TextOf(raw[..MAX_LINE_CHARS]) == TextOf(raw);
  }

  class RecordRing {
    var records: seq<Record>
    const messageLimit: nat
    var receivedTotal: nat
    var discardedTotal: nat
    // All lines received since the last clear, and how many records clears have removed.
    ghost var history: seq<Line>
    ghost var cleared: nat

    ghost predicate Valid()
      reads this
    {
      && Lines(records) == Last(history, messageLimit)
      && receivedTotal == |records| + discardedTotal + cleared
      && forall i :: 0 <= i < |records| ==> Storable(records[i])
    }

    constructor (messageLimit: nat)
      ensures Valid() && this.messageLimit == messageLimit && history == [] && receivedTotal == 0 && cleared == 0
    {
      this.messageLimit := messageLimit;
      records, receivedTotal, discardedTotal, history, cleared := [], 0, 0, [], 0;
    }

    method AppendRecord(raw: seq<Byte>, truncated: bool)
      requires Valid()
      modifies this
      ensures Valid() && cleared == old(cleared)
      ensures history == old(history) + [LineOf(raw, truncated)]
      ensures receivedTotal == old(receivedTotal) + 1
    {
      var timestamp := Now();
      var line := LineOf(raw, truncated);
      if |records| == messageLimit { discardedTotal := discardedTotal + 1; }
      receivedTotal := receivedTotal + 1;
      records := Last(records + [Record(timestamp, line)], messageLimit);
      history := history + [line];
    }

    method ConsumeLines(pending: Pending)
      requires Valid()
      modifies this, pending`bytes
      ensures Valid() && cleared == old(cleared)
      ensures var s := Complete([], old(pending.bytes));
        && history == old(history) + LinesOf(s.lines)
        && pending.bytes == s.rest
        && receivedTotal == old(receivedTotal) + |s.lines|
    {
      hide Complete, LineOf, LinesOf, Valid;
      ghost var done: seq<seq<Byte>> := [];
      ghost var all := Complete([], pending.bytes);
      while true
        invariant Valid() && cleared == old(cleared)
        invariant history == old(history) + LinesOf(done)
        invariant receivedTotal == old(receivedTotal) + |done|
        invariant var s := Complete([], pending.bytes); done + s.lines == all.lines && s.rest == all.rest
        decreases |pending.bytes|
      {
        var found, raw := TakeLine(pending);
        if !found {
          assert done + [] == done;
          return;
        }
        if raw != [] {
          AppendRecord(raw, |raw| > MAX_LINE_CHARS);
        }
        LinesOfConcat(done, Flush(raw));
        done := done + Flush(raw);
      }
    }

    /** One turn of the read loop: the pending bytes never exceed 5120 and end at 4096 or fewer. */
    method TakeChunk(pending: Pending, chunk: seq<Byte>)
      requires Valid() && |chunk| <= 1024
      requires |pending.bytes| <= 4096 && Unbroken(pending.bytes)
      modifies this, pending
      ensures Valid() && cleared == old(cleared)
      ensures |pending.bytes| <= 4096 && Unbroken(pending.bytes)
      ensures old(pending.most) <= 5120 ==> pending.most <= 5120
      ensures var s := Overflow(Complete(old(pending.bytes), chunk));
        history == old(history) + LinesOf(s.lines) && pending.bytes == s.rest
    {
      CompleteThenRest(pending.bytes, chunk);
      CompleteUnbroken(pending.bytes, chunk);
      pending.Extend(chunk);
      ConsumeLines(pending);
      if |pending.bytes| > MAX_PENDING_BYTES {
        OverflowLine(pending.bytes);
        LinesOfConcat(Complete(old(pending.bytes), chunk).lines, [pending.bytes]);
        AppendRecord(pending.bytes[..MAX_LINE_CHARS], true);
        pending.bytes := [];
      }
    }

    /** The read loop of `_run_capture` over the chunks it reads, with the flush in `finally`. */
    method Capture(chunks: seq<seq<Byte>>) returns (ghost most: nat)
      requires Valid() && ReadSizes(chunks)
      modifies this
      ensures most <= 5120
      ensures Valid() && cleared == old(cleared)
      ensures history == old(history) + LinesOf(Recorded([], chunks))
    {
      hide Valid, Complete, LinesOf, LineOf, Overflow, Recorded, Unbroken;
      NothingBreaks();
      var pending := new Pending();
      ghost var done: seq<seq<Byte>> := [];
      for i := 0 to |chunks|
        invariant Valid() && cleared == old(cleared) && fresh(pending)
        invariant |pending.bytes| <= MAX_PENDING_BYTES && Unbroken(pending.bytes)
        invariant pending.most <= MAX_PENDING_BYTES + READ_BYTES
        invariant history == old(history) + LinesOf(done)
        invariant done + Recorded(pending.bytes, chunks[i..]) == Recorded([], chunks)
      {
        ghost var s := Overflow(Complete(pending.bytes, chunks[i]));
        RecordedStep(done, pending.bytes, chunks, i);
        TakeChunk(pending, chunks[i]);
        LinesOfConcat(done, s.lines);
        done := done + s.lines;
      }
      RecordedEnd(pending.bytes, chunks);
      LinesOfConcat(done, Flush(pending.bytes));
      if pending.bytes != [] {
        AppendRecord(pending.bytes, |pending.bytes| > MAX_LINE_CHARS);
      }
      most := pending.most;
    }

    method Clear()
      requires Valid()
      modifies this
      ensures Valid() && records == [] && history == []
      ensures receivedTotal == old(receivedTotal) && cleared == old(cleared) + |old(records)|
    {
      cleared := cleared + |records|;
      records, history := [], [];
    }

    method Export(limit: int) returns (messages: seq<Record>, truncated: bool)
      requires Valid()
      ensures LongestFitting(messages, Selected(records, limit, messageLimit))
      ensures truncated <==> |messages| < |Selected(records, limit, messageLimit)|
    {
      hide RecordBytes, TotalBytes, Selected, Storable, Valid;
      NothingWeighs();
      var selected := Selected(records, limit, messageLimit);
      messages := [];
      var size := 0;
      var i := 0;
      while i < |selected|
        invariant 0 <= i <= |selected| && messages == selected[..i]
        invariant size == TotalBytes(messages) <= MAX_EXPORT_BYTES
      {
        var itemSize := RecordBytes(selected[i]);
        TotalNext(selected, i);
        if size + itemSize > MAX_EXPORT_BYTES { break; }
        messages := messages + [selected[i]];
        size := size + itemSize;
        i := i + 1;
      }
      truncated := |messages| < |selected|;
    }
  }

  /** Scanning the pending bytes again together with the new ones finds what scanning on would. */
  lemma CompleteThenRest(run: seq<Byte>, bytes: seq<Byte>)
    requires Unbroken(run)
    ensures Complete([], run + bytes) == Complete(run, bytes)
  {
    CompleteOfRun([], run, bytes);
    assert [] + run == run;
  }

  lemma {:induction false} CompleteOfRun(run: seq<Byte>, part: seq<Byte>, bytes: seq<Byte>)
    requires Unbroken(part)
    ensures Complete(run, part + bytes) == Complete(run + part, bytes)
    decreases |part|
  {
    if part == [] {
      assert part + bytes == bytes && run + part == run;
    } else {
      assert (part + bytes)[1..] == part[1..] + bytes;
      CompleteOfRun(run + [part[0]], part[1..], bytes);
      assert run + [part[0]] + part[1..] == run + part;
    }
  }
}
