/** Parsing undoes printing, for tables of firmware rows and of key/value rows. */
module ParserRoundTrip {
  import opened Common
  import opened Text
  import opened Parsers
  import opened ParserLines
  import opened ParserPairs
  import opened ParserRows

  // ---------------------------------------------------------------- labels

  predicate TailOk(rest: string) {
    rest == "" || (rest[0] == ' ' && Trimmed(rest[1..]))
  }

  lemma GapOf(rest: string)
    requires TailOk(rest)
    ensures Gap(rest) == if rest == "" then None else Some(rest[1..])
  {
    if rest != "" {
      assert rest == " " + rest[1..];
      LStripSpaces(" ", rest[1..]);
      TrimmedStrip(rest[1..]);
    }
  }

  /** A two-word label that is not there: its first word is not, or what follows it is not. */
  lemma NoTwoWords(s: string, first: string, second: string, i: nat)
    requires i < |first| && (i >= |s| || Lower(s[i]) != first[i])
    ensures TwoWords(s, first, second).None?
  {
    NotBegins(s, first, i);
  }

  lemma NoWord(s: string, word: string, i: nat)
    requires i < |word| && (i >= |s| || Lower(s[i]) != word[i])
    ensures OneWord(s, word).None?
  {
    NotBegins(s, word, i);
  }

  lemma IsOneWord(word: string, rest: string)
    requires LowerCase(word) && TailOk(rest)
    ensures OneWord(word + rest, word) == Some(rest)
  {
    BeginsAsWritten(word, rest);
    assert (word + rest)[|word|..] == rest;
  }

  /** The optional U behind a cover label. */
  lemma CoverU(word: string, rest: string)
    requires LowerCase(word) && TailOk(rest)
    ensures TwoWords(word + rest, word, "u") ==
      if rest != "" && StartsWithU(rest[1..]) then Some(rest[2..]) else None
  {
    hide Begins, Boundary;
    BeginsAsWritten(word, rest);
    assert (word + rest)[|word|..] == rest;
    GapOf(rest);
    if rest != "" { assert rest[1..][1..] == rest[2..]; }
  }

  lemma BeginsAsShown(second: string, shown: string, rest: string)
    requires |shown| == |second| && forall i :: 0 <= i < |shown| ==> Lower(shown[i]) == second[i]
    ensures Begins(shown + rest, second)
  {
    assert forall i :: 0 <= i < |shown| ==> (shown + rest)[i] == shown[i];
  }

  lemma IsTwoWords(first: string, second: string, shown: string, rest: string)
    requires LowerCase(first) && TailOk(rest) && second != "" && |shown| == |second|
    requires forall i :: 0 <= i < |shown| ==> Lower(shown[i]) == second[i]
    requires !IsSpace(shown[0])
    ensures TwoWords(first + (" " + (shown + rest)), first, second) == Some(rest)
  {
    hide Begins, Boundary, LStrip;
    var s := first + (" " + (shown + rest));
    BeginsAsWritten(first, " " + (shown + rest));
    BeginsAsShown(second, shown, rest);
    assert s[|first|..] == " " + (shown + rest);
    LStripVisible(shown + rest);
    assert (shown + rest)[|shown|..] == rest;
    TailBoundary(rest);
  }

  lemma LStripVisible(s: string)
    requires s != "" && !IsSpace(s[0])
    ensures LStrip(" " + s) == s
  {
    LStripSpaces(" ", s);
  }

  lemma TailBoundary(rest: string)
    requires TailOk(rest)
    ensures Boundary(rest)
  {
  }

  lemma PlainLabel(kind: int, rest: string)
    requires kind in {1, 3, 11} && TailOk(rest)
    ensures LabelAt(LabelText(kind) + rest) == Some(Label(kind, rest))
  {
    hide TwoWords, OneWord;
    var s := LabelText(kind) + rest;
    NoTwoWords(s, "coverpct", "u", 0);
    NoTwoWords(s, "cover", "u", 0);
    NoTwoWords(s, "alarm", "board", 0);
    NoWord(s, "coverpct", 0);
    if kind != 1 { NoWord(s, "switch", 0); }
    if kind != 3 { NoWord(s, "dimmer", 0); }
    NoWord(s, "cover", 0);
    IsOneWord(LabelText(kind), rest);
  }

  lemma AlarmLabel(rest: string)
    requires TailOk(rest)
    ensures LabelAt("alarm board" + rest) == Some(Label(14, rest))
  {
    hide TwoWords;
    var s := "alarm board" + rest;
    NoTwoWords(s, "coverpct", "u", 0);
    NoTwoWords(s, "cover", "u", 0);
    assert s == "alarm" + (" " + ("board" + rest));
    IsTwoWords("alarm", "board", "board", rest);
  }

  /** `cover` followed by anything but its plain rest is no "cover U". */
  lemma NotCoverU(rest: string)
    ensures TwoWords("coverpct" + rest, "cover", "u").None?
  {
    var s := "coverpct" + rest;
    assert s[5] == 'p' && s[5..][0] == 'p';
    assert LStrip(s[5..]) == s[5..];
  }

  lemma CoverLabel(kind: int, rest: string)
    requires kind in {8, 9} && TailOk(rest)
    ensures LabelAt(LabelText(kind) + rest) == Some(
      if rest != "" && StartsWithU(rest[1..]) then Label(kind + 10, rest[2..]) else Label(kind, rest))
  {
    hide TwoWords, OneWord, StartsWithU;
    var s := LabelText(kind) + rest;
    CoverU(LabelText(kind), rest);
    IsOneWord(LabelText(kind), rest);
    NoTwoWords(s, "alarm", "board", 0);
    NoWord(s, "switch", 0);
    NoWord(s, "dimmer", 0);
    if kind == 8 {
      assert |s| <= 5 || s[5] == ' ';
      NoTwoWords(s, "coverpct", "u", 5);
      NoWord(s, "coverpct", 5);
    } else {
      NotCoverU(rest);
    }
  }

  lemma CoverULabel(kind: int, rest: string)
    requires kind in {18, 19} && TailOk(rest)
    ensures LabelAt(LabelText(kind) + rest) == Some(Label(kind, rest))
  {
    hide TwoWords;
    var s := LabelText(kind) + rest;
    if kind == 18 {
      assert s[5] == ' ';
      NoTwoWords(s, "coverpct", "u", 5);
      assert s == "cover" + (" " + ("U" + rest));
      IsTwoWords("cover", "u", "U", rest);
    } else {
      assert s == "coverpct" + (" " + ("U" + rest));
      IsTwoWords("coverpct", "u", "U", rest);
    }
  }

  /** The label that is read back. */
  function LabelRead(kind: int, rest: string): Label {
    if kind in {8, 9} && rest != "" && StartsWithU(rest[1..]) then Label(kind + 10, rest[2..]) else Label(kind, rest)
  }

  lemma LabelIsRead(kind: int, rest: string)
    requires RowKind(kind) && TailOk(rest)
    ensures LabelAt(LabelText(kind) + rest) == Some(LabelRead(kind, rest))
  {
    hide LabelAt, LabelText, StartsWithU;
    if kind in {1, 3, 11} { PlainLabel(kind, rest); }
    else if kind == 14 { assert LabelText(14) == "alarm board" by { AlarmText(); } AlarmLabel(rest); }
    else if kind in {8, 9} { CoverLabel(kind, rest); }
    else { CoverULabel(kind, rest); }
  }

  lemma AlarmText()
    ensures LabelText(14) == "alarm board"
  {
  }

  // ---------------------------------------------------------------- calibration

  lemma HexParts(n: nat)
    requires n < 65536
    ensures ((n / 4096 * 16 + n / 256 % 16) * 16 + n / 16 % 16) * 16 + n % 16 == n
  {
    var q := n / 16;
    assert n == 16 * q + n % 16;
    var r := q / 16;
    assert q == 16 * r + q % 16 && r == n / 256;
    assert r == 16 * (r / 16) + r % 16 && r / 16 == n / 4096;
  }

  lemma Hex4Value(n: nat)
    requires n < 65536
    ensures var s := Hex4(n);
      ((HexValue(s[0]) * 16 + HexValue(s[1])) * 16 + HexValue(s[2])) * 16 + HexValue(s[3]) == n
  {
    hide HexValue, HexDigit;
    HexParts(n);
  }

  lemma GapHexRead(h: string, rest: string)
    requires h != "" && HexAt(h, |h|)
    ensures GapHex(" " + (h + rest), |h|) == Some(rest)
  {
    hide LStrip;
    assert IsHex(h[0]) && (h + rest)[0] == h[0];
    LStripVisible(h + rest);
    assert forall i :: 0 <= i < |h| ==> (h + rest)[i] == h[i];
    assert (h + rest)[|h|..] == rest;
  }

  lemma BlockIsRead(b: Block, rest: string)
    requires BlockOk(b) && TailOk(rest)
    ensures CalibrationAt(ShowBlock(b, rest)) == Some(Calibration(b.maxpos, if rest == "" then "" else rest[1..]))
  {
    hide Hex2, Hex4, Gap, GapHex, HexValue;
    var t5 := Hex2(b.upPulse) + rest;
    var t4 := Hex4(b.up) + (" " + t5);
    var t3 := Hex2(b.downPulse) + (" " + t4);
    var t2 := Hex4(b.down) + (" " + t3);
    var s := ShowBlock(b, rest);
    GapHexRead(Hex4(b.down), " " + t3);
    GapHexRead(Hex2(b.downPulse), " " + t4);
    GapHexRead(Hex4(b.up), " " + t5);
    GapHexRead(Hex2(b.upPulse), rest);
    GapOf(rest);
    Hex4Value(b.maxpos);
    assert s[4..] == " " + t2;
    assert forall i :: 0 <= i < 4 ==> s[i] == Hex4(b.maxpos)[i];
  }

  // ---------------------------------------------------------------- one firmware row

  lemma TailShape(row: Row)
    requires RowOk(row)
    ensures Tail(row) == "" || Trimmed(Tail(row))
    ensures TailOk(Behind(" ", Tail(row)))
    ensures TailOk(Behind(" ", NameText(row)))
  {
    hide Hex2, Hex4, HexDigit;
    assert forall c :: IsHex(c) ==> !IsSpace(c);
    if row.block.Some? {
      var b := row.block.value;
      var rest := Behind(" ", NameText(row));
      var s := ShowBlock(b, rest);
      assert s[0] == Hex4(b.maxpos)[0];
      assert s[|s| - 1] == if rest == "" then Hex2(b.upPulse)[1] else rest[|rest| - 1];
    }
    assert Behind(" ", Tail(row)) == "" || Behind(" ", Tail(row))[1..] == Tail(row);
    assert Behind(" ", NameText(row)) == "" || Behind(" ", NameText(row))[1..] == NameText(row);
  }

  lemma StripBehind(text: string)
    requires text == "" || Trimmed(text)
    ensures Strip(Behind(" ", text)) == text
  {
    if text != "" {
      LStripSpaces(" ", text);
      TrimmedStrip(text);
    }
  }

  lemma RowHead(busId: string, rest: string)
    requires BusIdOk(busId)
    ensures var s := busId + rest;
      LStrip(s) == s && HexAt(s, 2) && s[2..] == rest && UpperAll(s[..2]) == busId
  {
    hide UpperAll;
    var s := busId + rest;
    assert s[0] == busId[0] && s[1] == busId[1] && IsHex(busId[0]) && IsHex(busId[1]);
    assert s[..2] == busId && s[2..] == rest;
  }

  lemma LabelIsVisible(kind: int, rest: string)
    requires RowKind(kind)
    ensures LStrip(LabelText(kind) + rest) == LabelText(kind) + rest
  {
    hide LabelText, LabelHead, LabelTail;
    LabelWords(kind);
    assert LabelText(kind)[0] == LabelHead(kind)[0];
  }

  lemma RowFound(row: Row)
    requires RowOk(row)
    ensures FirmwareDevice(Shown(row)) ==
      Some(RowDevice(row.busId, LabelRead(row.kind, Behind(" ", Tail(row)))))
  {
    hide LStrip, LabelAt, LabelRead, RowDevice, Tail, CalibrationAt, HexAt, UpperAll, Behind, LabelText, NameOk;
    TailShape(row);
    RowHead(row.busId, LabelText(row.kind) + Behind(" ", Tail(row)));
    LabelIsVisible(row.kind, Behind(" ", Tail(row)));
    LabelIsRead(row.kind, Behind(" ", Tail(row)));
  }

  lemma NoCalibration()
    ensures CalibrationAt("").None?
  {
  }

  lemma BlockRowRead(row: Row)
    requires RowOk(row) && row.block.Some?
    ensures FirmwareDevice(Shown(row)) == Some(DeviceOf(row))
  {
    hide FirmwareDevice, CalibrationAt, StartsWithU, ShowBlock;
    RowFound(row);
    TailShape(row);
    StripBehind(Tail(row));
    BlockStartsWithHex(row);
    var name := NameText(row);
    BlockIsRead(row.block.value, Behind(" ", name));
    if row.name.Some? {
      assert Behind(" ", name)[1..] == name;
      TrimmedStrip(name);
    }
  }

  lemma PlainTail(row: Row)
    requires RowOk(row) && row.block.None?
    ensures Tail(row) == NameText(row) && Strip(Behind(" ", NameText(row))) == NameText(row)
    ensures row.name.Some? ==> Behind(" ", NameText(row)) != "" && Behind(" ", NameText(row))[1..] == row.name.value
  {
    hide Strip;
    StripBehind(NameText(row));
  }

  lemma PlainRowRead(row: Row)
    requires RowOk(row) && row.block.None?
    ensures FirmwareDevice(Shown(row)) == Some(DeviceOf(row)) <==>
      (row.name.Some? ==>
        && (row.kind in {8, 9} ==> !StartsWithU(row.name.value))
        && (IsPercent(row.kind) ==> CalibrationAt(row.name.value).None?))
  {
    hide FirmwareDevice, CalibrationAt, StartsWithU, Strip, Tail, Behind, Shown, NameOk, BusIdOk;
    RowFound(row);
    NoCalibration();
    PlainTail(row);
    assert row.name.None? ==> NameText(row) == "" && Behind(" ", "") == "" by { BehindNothing(); }
    if row.name.Some? { NameIsVisible(row); }
  }

  lemma BehindNothing()
    ensures Behind(" ", "") == ""
  {
  }

  lemma NameIsVisible(row: Row)
    requires RowOk(row) && row.name.Some?
    ensures row.name.value != ""
  {
  }

  /** What a firmware row is read as, its pairs aside. */
  lemma RowReadIff(row: Row)
    requires RowOk(row)
    ensures FirmwareDevice(Shown(row)) == Some(DeviceOf(row)) <==>
      (row.name.Some? && row.block.None? ==>
        && (row.kind in {8, 9} ==> !StartsWithU(row.name.value))
        && (IsPercent(row.kind) ==> CalibrationAt(row.name.value).None?))
  {
    hide FirmwareDevice, CalibrationAt, StartsWithU, Shown;
    if row.block.Some? { BlockRowRead(row); } else { PlainRowRead(row); }
  }

  predicate StartsWithHex(row: Row)
    requires RowOk(row)
  {
    Tail(row) != "" && !StartsWithU(Tail(row)) && Behind(" ", Tail(row))[1..] == Tail(row)
  }

  lemma BlockStartsWithHex(row: Row)
    requires RowOk(row) && row.block.Some?
    ensures StartsWithHex(row)
  {
    hide Hex2, Hex4;
    var s := Tail(row);
    assert s[0] == Hex4(row.block.value.maxpos)[0] && IsHex(s[0]);
    NotBegins(s, "u", 0);
    assert Behind(" ", s)[1..] == s;
  }

  // ---------------------------------------------------------------- values are shorter than names

  predicate Shorter(pairs: seq<Pair>, n: int) {
    forall i :: 0 <= i < |pairs| ==> |pairs[i].value| < n
  }

  lemma {:induction false} PairsAreShorter(inWord: bool, s: string)
    ensures Shorter(FindPairs(inWord, s), |s|)
    decreases |s|
  {
    hide KeyAt, ValueAt;
    if s != "" {
      match if inWord then None else PairAt(s)
      case Some(m) => PairsAreShorter(false, m.rest);
      case None => PairsAreShorter(IsWord(s[0]), s[1..]);
    }
  }

  lemma {:induction false} GotIsShorter(pairs: seq<Pair>, key: Key, n: int)
    requires Shorter(pairs, n)
    ensures Get(pairs, key).Some? ==> |Get(pairs, key).value| < n
  {
    if pairs != [] { GotIsShorter(pairs[..|pairs| - 1], key, n); }
  }

  lemma PairsDeviceName(pairs: seq<Pair>, busId: string, n: int)
    requires Shorter(pairs, n)
    ensures match PairsDevice(pairs, busId)
      case Ok(d) => d.name.Some? ==> |d.name.value| < n
      case Raised => true
  {
    hide IntField, Shorter, Get;
    GotIsShorter(pairs, DevName, n);
    GotIsShorter(pairs, Name, n);
  }

  /** A firmware row is read back as the device it was printed from exactly when it is unambiguous;
      an ambiguous one still yields one device, or an exception. */
  lemma RowRoundTripIff(row: Row)
    requires RowOk(row)
    ensures ParseRecord(Shown(row)) == Ok([DeviceOf(row)]) <==> Unambiguous(row)
    ensures ParseRecord(Shown(row)).Ok? ==> |ParseRecord(Shown(row)).value| == 1
  {
    hide FindPairs, FirmwareDevice, Shown, CalibrationAt, StartsWithU, PairsDevice, RowOk, BusIdOf;
    RowPairs(row);
    RowReadIff(row);
    RowFound(row);
    NoBusId();
    var pairs := FindPairs(false, Shown(row));
    if row.name.Some? {
      PairsAreShorter(false, row.name.value);
      if Truthy(BusIdOf(pairs)) { PairsDeviceName(pairs, BusIdOf(pairs).value, |row.name.value|); }
    }
  }

  lemma NoBusId()
    ensures !Truthy(BusIdOf([]))
  {
  }

  // ---------------------------------------------------------------- tables

  lemma CollapseRow(row: Row)
    requires RowOk(row)
    ensures Collapse(false, PrintRow(row)) == Shown(row)
    ensures CleanLine(Shown(row))
  {
    hide Tail, Collapse, LabelText, BusIdOk;
    var head := row.busId + LabelText(row.kind);
    var tail := Tail(row);
    HeadIsTidy(row);
    TailIsTidy(row);
    if tail == "" {
      assert LabelText(row.kind) + "" == LabelText(row.kind);
      assert PrintRow(row) == head && Shown(row) == head;
    } else {
      RegroupGap(row.busId, LabelText(row.kind), "  ", tail);
      RegroupGap(row.busId, LabelText(row.kind), " ", tail);
      CollapseConcat(false, head + "  ", tail);
      CollapseConcat(false, head, "  ");
      TwoBlanks();
      CleanConcat(head, " ", tail);
    }
  }

  lemma RegroupGap(a: string, b: string, gap: string, c: string)
    ensures a + (b + (gap + c)) == ((a + b) + gap) + c
  {
  }

  lemma CleanConcat(a: string, gap: string, b: string)
    requires CleanLine(a) && CleanLine(b) && Unseparated(gap)
    ensures CleanLine((a + gap) + b)
  {
  }

  lemma TwoBlanks()
    ensures Collapse(false, "  ") == " "
  {
    assert "  "[1..] == " " && " "[1..] == "";
  }

  /** No blanks but single spaces, and no separators. */
  predicate Neat(s: string) {
    Tidy(s) && Unseparated(s)
  }

  lemma NeatHex(h: string, rest: string)
    requires HexAt(h, |h|) && Neat(rest)
    ensures Neat(h + rest)
  {
    var s := h + rest;
    assert forall i :: 0 <= i < |h| ==> s[i] == h[i] && !IsBlank(h[i]) && !IsSeparator(h[i]);
    assert forall i :: |h| <= i < |s| ==> s[i] == rest[i - |h|];
  }

  lemma NeatSpace(rest: string)
    requires Neat(rest) && rest != "" && !IsBlank(rest[0])
    ensures Neat(" " + rest)
  {
    var s := " " + rest;
    forall i | 0 <= i < |s| && IsBlank(s[i]) ensures s[i] == ' ' && (i > 0 ==> !IsBlank(s[i - 1])) {
      if i > 0 { assert IsBlank(rest[i - 1]); }
    }
  }

  lemma NeatWord(h: string, rest: string)
    requires h != "" && HexAt(h, |h|) && Neat(rest)
    ensures Neat(" " + (h + rest))
  {
    NeatHex(h, rest);
    assert IsHex((h + rest)[0]);
    NeatSpace(h + rest);
  }

  lemma TailIsTidy(row: Row)
    requires RowOk(row)
    ensures var tail := Tail(row); tail == "" || (Collapse(true, tail) == tail && CleanLine(tail))
  {
    hide Hex2, Hex4, Collapse, Neat, BusIdOk;
    TailShape(row);
    var name := NameText(row);
    var tail := Tail(row);
    assert name == "" || (Neat(name) && !IsBlank(name[0])) by { NeatName(row); }
    if row.block.Some? {
      var b := row.block.value;
      var t5 := Hex2(b.upPulse) + Behind(" ", name);
      var t4 := Hex4(b.up) + (" " + t5);
      var t3 := Hex2(b.downPulse) + (" " + t4);
      var t2 := Hex4(b.down) + (" " + t3);
      if name != "" { NeatSpace(name); } else { NeatNothing(); }
      NeatWord(Hex2(b.upPulse), Behind(" ", name));
      NeatWord(Hex4(b.up), " " + t5);
      NeatWord(Hex2(b.downPulse), " " + t4);
      NeatWord(Hex4(b.down), " " + t3);
      NeatHex(Hex4(b.maxpos), " " + t2);
    }
    if tail != "" { NeatCollapses(tail); }
  }

  lemma NeatName(row: Row)
    requires RowOk(row)
    ensures var name := NameText(row); name == "" || (Neat(name) && !IsBlank(name[0]))
  {
  }

  lemma NeatNothing()
    ensures Neat("")
  {
  }

  lemma NeatCollapses(s: string)
    requires Neat(s) && Trimmed(s)
    ensures Collapse(true, s) == s && CleanLine(s)
  {
    CollapseTidy(true, s);
  }

  lemma HeadIsTidy(row: Row)
    requires RowOk(row)
    ensures var head := row.busId + LabelText(row.kind);
      Collapse(false, head) == head && CleanLine(head) && !IsBlank(head[|head| - 1])
  {
    hide Collapse, LabelText;
    LabelIsNeat(row.kind);
    NeatHex(row.busId, LabelText(row.kind));
    assert IsHex(row.busId[0]);
    CollapseTidy(false, row.busId + LabelText(row.kind));
  }

  lemma LabelIsNeat(kind: int)
    requires RowKind(kind)
    ensures Neat(LabelText(kind)) && Trimmed(LabelText(kind)) && !IsBlank(LabelText(kind)[|LabelText(kind)| - 1])
  {
  }
}
