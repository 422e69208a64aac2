/** Firmware rows: what parsing makes of a printed row, and exactly when it undoes the printing. */
module ParserRows {
  import opened Common
  import opened Text
  import opened Parsers
  import opened ParserLines

  // ---------------------------------------------------------------- printing

  /** The calibration block of a percentage cover; only its first word is kept by the parser. */
  datatype Block = Block(maxpos: nat, down: nat, downPulse: nat, up: nat, upPulse: nat)

  datatype Row = Row(busId: string, kind: int, block: Option<Block>, name: Option<string>)

  function HexDigit(d: nat): (c: char)
    requires d < 16
    ensures IsHex(c) && HexValue(c) == d && Upper(c) == c
  {
    if d < 10 then '0' + d as char else 'A' + (d - 10) as char
  }

  function Hex2(n: nat): (s: string)
    requires n < 256
    ensures |s| == 2 && HexAt(s, 2)
  {
    [HexDigit(n / 16), HexDigit(n % 16)]
  }

  function Hex4(n: nat): (s: string)
    requires n < 65536
    ensures |s| == 4 && HexAt(s, 4)
  {
    [HexDigit(n / 4096), HexDigit(n / 256 % 16), HexDigit(n / 16 % 16), HexDigit(n % 16)]
  }

  predicate BlockOk(b: Block) {
    b.maxpos < 65536 && b.down < 65536 && b.downPulse < 256 && b.up < 65536 && b.upPulse < 256
  }

  function ShowBlock(b: Block, rest: string): string
    requires BlockOk(b)
  {
    Hex4(b.maxpos) + (" " + (Hex4(b.down) + (" " + (Hex2(b.downPulse) + (" " + (Hex4(b.up) + (" " + (Hex2(b.upPulse) + rest))))))))
  }

  predicate RowKind(kind: int) {
    kind in {1, 3, 8, 9, 11, 14, 18, 19}
  }

  function LabelText(kind: int): string
    requires RowKind(kind)
  {
    if kind == 1 then "switch"
    else if kind == 3 then "dimmer"
    else if kind == 8 then "cover"
    else if kind == 9 then "coverpct"
    else if kind == 11 then "generic"
    else if kind == 14 then "alarm board"
    else if kind == 18 then "cover U"
    else "coverpct U"
  }

  /** Trimmed, single spaces only, no newline or bar. */
  predicate NameOk(name: string) {
    CleanLine(name) && Tidy(name)
  }

  predicate BusIdOk(busId: string) {
    |busId| == 2 && HexAt(busId, 2) && UpperAll(busId) == busId
  }

  predicate RowOk(row: Row) {
    && BusIdOk(row.busId)
    && RowKind(row.kind)
    && (row.block.Some? ==> IsPercent(row.kind) && BlockOk(row.block.value))
    && (row.name.Some? ==> NameOk(row.name.value))
  }

  /** The text behind a gap, when there is any. */
  function Behind(gap: string, text: string): string {
    if text == "" then "" else gap + text
  }

  function NameText(row: Row): string {
    if row.name.None? then "" else row.name.value
  }

  function Tail(row: Row): string
    requires RowOk(row)
  {
    if row.block.Some? then ShowBlock(row.block.value, Behind(" ", NameText(row))) else NameText(row)
  }

  /** A row as the firmware prints it, two spaces behind the label. */
  function PrintRow(row: Row): string
    requires RowOk(row)
  {
    row.busId + (LabelText(row.kind) + Behind("  ", Tail(row)))
  }

  /** The same row once its blanks are collapsed. */
  function Shown(row: Row): string
    requires RowOk(row)
  {
    row.busId + (LabelText(row.kind) + Behind(" ", Tail(row)))
  }

  function DeviceOf(row: Row): Device {
    Device(row.busId, Some(row.kind), row.name, if row.block.Some? then Some(row.block.value.maxpos) else None)
  }

  // ---------------------------------------------------------------- ambiguity

  /** A name that turns "cover" into "cover U". */
  predicate StartsWithU(name: string) {
    Begins(name, "u") && Boundary(name[1..])
  }

  /** Parsing undoes printing exactly for these rows. */
  predicate Unambiguous(row: Row) {
    row.name.Some? ==>
      var name := row.name.value;
      && !Truthy(BusIdOf(FindPairs(false, name)))
      && (row.block.None? && row.kind in {8, 9} ==> !StartsWithU(name))
      && (row.block.None? && IsPercent(row.kind) ==> CalibrationAt(name).None?)
  }

  // ---------------------------------------------------------------- pairs in a row

  lemma {:induction false} WordSkipped(w: string, rest: string)
    requires forall i :: 0 <= i < |w| ==> IsWord(w[i])
    ensures FindPairs(true, w + rest) == FindPairs(true, rest)
  {
    hide FindPairs, PairAt;
    if w == "" {
      assert w + rest == rest;
    } else {
      assert (w + rest)[1..] == w[1..] + rest;
      FindSkip(true, w + rest);
      WordSkipped(w[1..], rest);
    }
  }

  lemma WordPassed(w: string, rest: string)
    requires w != "" && (forall i :: 0 <= i < |w| ==> IsWord(w[i])) && KeyAt(w + rest).None?
    ensures FindPairs(false, w + rest) == FindPairs(true, rest)
  {
    hide FindPairs, KeyAt;
    assert (w + rest)[1..] == w[1..] + rest;
    FindSkip(false, w + rest);
    WordSkipped(w[1..], rest);
  }

  lemma SpacePassed(rest: string)
    ensures FindPairs(true, " " + rest) == FindPairs(false, rest)
  {
    hide FindPairs, PairAt;
    assert (" " + rest)[1..] == rest;
    FindSkip(true, " " + rest);
  }

  lemma NoKeyAtHex(s: string)
    requires HexAt(s, 2) && (|s| > 2 ==> Lower(s[2]) != 'v')
    ensures KeyAt(s).None?
  {
    hide Begins;
    NotBegins(s, "busid", 1);
    NotBegins(s, "bus_id", 1);
    NotBegins(s, "id", 0);
    NotBegins(s, "type", 0);
    NotBegins(s, "devname", 2);
    NotBegins(s, "name", 0);
    NotBegins(s, "maxpos", 0);
  }

  lemma HexPassed(h: string, rest: string)
    requires (|h| == 2 || |h| == 4) && HexAt(h, |h|) && (rest == "" || rest[0] == ' ')
    ensures FindPairs(false, h + rest) == FindPairs(true, rest)
  {
    NoKeyAtHex(h + rest);
    WordPassed(h, rest);
  }

  lemma BlockPassed(b: Block, rest: string)
    requires BlockOk(b) && (rest == "" || rest[0] == ' ')
    ensures FindPairs(false, ShowBlock(b, rest)) == FindPairs(true, rest)
  {
    hide FindPairs, Hex2, Hex4;
    var t5 := Hex2(b.upPulse) + rest;
    var t4 := Hex4(b.up) + (" " + t5);
    var t3 := Hex2(b.downPulse) + (" " + t4);
    var t2 := Hex4(b.down) + (" " + t3);
    HexPassed(Hex2(b.upPulse), rest);
    SpacePassed(t5);
    HexPassed(Hex4(b.up), " " + t5);
    SpacePassed(t4);
    HexPassed(Hex2(b.downPulse), " " + t4);
    SpacePassed(t3);
    HexPassed(Hex4(b.down), " " + t3);
    SpacePassed(t2);
    HexPassed(Hex4(b.maxpos), " " + t2);
  }

  function LabelHead(kind: int): string
    requires RowKind(kind)
  {
    if kind == 14 then "alarm" else if kind == 18 then "cover" else if kind == 19 then "coverpct" else LabelText(kind)
  }

  function LabelTail(kind: int): string
    requires RowKind(kind)
  {
    if kind == 14 then "board" else if kind == 18 || kind == 19 then "U" else ""
  }

  lemma LabelWords(kind: int)
    requires RowKind(kind)
    ensures LabelText(kind) == LabelHead(kind) + Behind(" ", LabelTail(kind))
    ensures LabelHead(kind) != "" && LabelHead(kind)[0] in "sdcga"
    ensures forall i :: 0 <= i < |LabelHead(kind)| ==> IsWord(LabelHead(kind)[i])
    ensures forall i :: 0 <= i < |LabelTail(kind)| ==> IsWord(LabelTail(kind)[i])
  {
  }

  lemma SecondWordPassed(kind: int, rest: string)
    requires RowKind(kind) && LabelTail(kind) != ""
    ensures FindPairs(false, LabelTail(kind) + rest) == FindPairs(true, rest)
  {
    hide FindPairs;
    var s := LabelTail(kind) + rest;
    if kind == 14 {
      hide Begins;
      assert s[0] == 'b' && s[1] == 'o';
      NotBegins(s, "busid", 1);
      NotBegins(s, "bus_id", 1);
      NotBegins(s, "id", 0);
      NotBegins(s, "type", 0);
      NotBegins(s, "devname", 0);
      NotBegins(s, "name", 0);
      NotBegins(s, "maxpos", 0);
      assert KeyAt(s).None?;
    } else {
      NoKeyAt(s);
    }
    LabelWords(kind);
    WordPassed(LabelTail(kind), rest);
  }

  lemma RegroupWords(a: string, b: string, c: string, d: string)
    ensures a + ((b + (" " + c)) + d) == (a + b) + (" " + (c + d))
  {
  }

  lemma LabelPassed(busId: string, kind: int, rest: string)
    requires BusIdOk(busId) && RowKind(kind) && (rest == "" || rest[0] == ' ')
    ensures FindPairs(false, busId + (LabelText(kind) + rest)) == FindPairs(true, rest)
  {
    hide FindPairs, KeyAt, LabelText, LabelHead, LabelTail, UpperAll;
    LabelWords(kind);
    var first, second := busId + LabelHead(kind), LabelTail(kind);
    var s := busId + (LabelText(kind) + rest);
    assert s[2] == LabelHead(kind)[0];
    NoKeyAtHex(s);
    if second == "" {
      assert LabelHead(kind) + "" == LabelHead(kind);
      Regroup(busId, LabelHead(kind), rest);
      WordPassed(first, rest);
    } else {
      RegroupWords(busId, LabelHead(kind), second, rest);
      WordPassed(first, " " + (second + rest));
      SpacePassed(second + rest);
      SecondWordPassed(kind, rest);
    }
  }

  lemma NothingLeft()
    ensures FindPairs(true, "") == []
  {
  }

  /** Only the name can hold pairs. */
  lemma RowPairs(row: Row)
    requires RowOk(row)
    ensures FindPairs(false, Shown(row)) == if row.name.None? then [] else FindPairs(false, row.name.value)
  {
    hide FindPairs, LabelText, Hex2, Hex4, KeyAt, Begins;
    NothingLeft();
    var tail := Tail(row);
    LabelPassed(row.busId, row.kind, Behind(" ", tail));
    if tail != "" {
      SpacePassed(tail);
      if row.block.Some? {
        BlockPassed(row.block.value, Behind(" ", NameText(row)));
        if row.name.Some? { SpacePassed(row.name.value); }
      }
    }
  }
}
