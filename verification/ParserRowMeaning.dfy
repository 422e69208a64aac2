/** What the pieces of a firmware row mean, in terms of the characters of the text. */
module ParserRowMeaning {
  import opened Common
  import opened Text
  import opened Parsers
  import opened ParserLines
  import opened ParserPairs
  import opened ParserTables
  import opened ParserRows
  import opened ParserRoundTrip
  import opened ParserMeaning

  // ---------------------------------------------------------------- characters

  /** A hexadecimal digit is worth its place in the row of digits. */
  lemma HexMeans(i: nat)
    requires i < 16
    ensures IsHex("0123456789abcdef"[i]) && HexValue("0123456789abcdef"[i]) == i
    ensures IsHex("0123456789ABCDEF"[i]) && HexValue("0123456789ABCDEF"[i]) == i
  {
  }

  // ---------------------------------------------------------------- calibration blocks

  /** A name that starts with a calibration block: five hexadecimal words and the gaps between them. */
  datatype Parts = Parts(maxpos: string, gap1: string, down: string, gap2: string, downPulse: string, gap3: string,
                         up: string, gap4: string, upPulse: string, rest: string)

  predicate HexWord(h: string, n: nat) {
    |h| == n && forall i :: 0 <= i < n ==> IsHex(h[i])
  }

  predicate IsWideGap(gap: string) {
    gap != "" && AllSpaces(gap)
  }

  function Behind4(p: Parts): string {
    p.gap4 + (p.upPulse + p.rest)
  }

  function Behind3(p: Parts): string {
    p.gap3 + (p.up + Behind4(p))
  }

  function Behind2(p: Parts): string {
    p.gap2 + (p.downPulse + Behind3(p))
  }

  function Whole(p: Parts): string {
    p.maxpos + (p.gap1 + (p.down + Behind2(p)))
  }

  predicate PartsOk(p: Parts) {
    && HexWord(p.maxpos, 4) && HexWord(p.down, 4) && HexWord(p.downPulse, 2) && HexWord(p.up, 4) && HexWord(p.upPulse, 2)
    && IsWideGap(p.gap1) && IsWideGap(p.gap2) && IsWideGap(p.gap3) && IsWideGap(p.gap4)
    && (p.rest == "" || IsSpace(p.rest[0]))
  }

  predicate Splits(s: string, gap: string, word: string, n: nat, rest: string) {
    s == gap + (word + rest) && IsWideGap(gap) && HexWord(word, n)
  }

  lemma GapWordRead(gap: string, word: string, n: nat, rest: string)
    requires IsWideGap(gap) && 0 < n && HexWord(word, n)
    ensures GapHex(gap + (word + rest), n) == Some(rest)
  {
    hide LStrip, IsSpace, AllSpaces;
    var v := word + rest;
    assert IsHex(word[0]) && v[0] == word[0];
    HexIsVisible(word[0]);
    LStripSpaces(gap, v);
    LStripVisibleOnly(v);
    assert forall i :: 0 <= i < |word| ==> v[i] == word[i];
    assert v[|word|..] == rest;
  }

  lemma HexIsVisible(c: char)
    ensures IsHex(c) ==> !IsSpace(c)
  {
  }

  predicate SpacesUpTo(s: string, n: int) {
    n <= |s| && forall i :: 0 <= i < n ==> IsSpace(s[i])
  }

  lemma OneMoreSpace(s: string, n: int)
    requires s != "" && IsSpace(s[0]) && SpacesUpTo(s[1..], n)
    ensures SpacesUpTo(s, n + 1)
  {
    hide IsSpace;
    forall i | 0 <= i < n + 1 ensures IsSpace(s[i]) {
      if i > 0 { assert IsSpace(s[1..][i - 1]); }
    }
  }

  lemma {:induction false} LStripped(s: string)
    ensures SpacesUpTo(s, |s| - |LStrip(s)|)
  {
    hide IsSpace;
    if s != "" && IsSpace(s[0]) {
      LStripped(s[1..]);
      hide SpacesUpTo;
      OneMoreSpace(s, |s| - 1 - |LStrip(s[1..])|);
    }
  }

  lemma GapWordSplit(s: string, n: nat) returns (gap: string, word: string)
    requires GapHex(s, n).Some?
    ensures Splits(s, gap, word, n, GapHex(s, n).value)
  {
    hide LStrip, IsSpace;
    LStripped(s);
    var v := LStrip(s);
    gap, word := s[..|s| - |v|], v[..n];
    assert s == gap + v;
    assert v == word + v[n..];
  }

  /** The value of four hexadecimal digits. */
  function Value4(h: string): nat
    requires HexWord(h, 4)
  {
    HexValue(h[0]) * 4096 + HexValue(h[1]) * 256 + HexValue(h[2]) * 16 + HexValue(h[3])
  }

  /** The four gaps and words behind the maximum position. */
  lemma WordsAreRead(p: Parts)
    requires PartsOk(p)
    ensures var a := p.gap1 + (p.down + Behind2(p));
      && GapHex(a, 4) == Some(Behind2(p))
      && GapHex(Behind2(p), 2) == Some(Behind3(p))
      && GapHex(Behind3(p), 4) == Some(Behind4(p))
      && GapHex(Behind4(p), 2) == Some(p.rest)
  {
    hide GapHex, AllSpaces, IsHex, HexWord, IsWideGap;
    GapWordRead(p.gap1, p.down, 4, Behind2(p));
    GapWordRead(p.gap2, p.downPulse, 2, Behind3(p));
    GapWordRead(p.gap3, p.up, 4, Behind4(p));
    GapWordRead(p.gap4, p.upPulse, 2, p.rest);
  }

  lemma PartsAreRead(p: Parts)
    requires PartsOk(p)
    ensures CalibrationAt(Whole(p)) == Some(Calibration(Value4(p.maxpos), LStrip(p.rest)))
  {
    hide GapHex, LStrip, Behind2, Behind3, Behind4, Value4, CalibrationAt, AllSpaces, IsHex;
    WordsAreRead(p);
    ReadFrom(p.maxpos, p.gap1 + (p.down + Behind2(p)), Behind2(p), Behind3(p), Behind4(p), p.rest);
  }

  lemma ReadFrom(maxpos: string, a: string, b: string, c: string, d: string, rest: string)
    requires HexWord(maxpos, 4) && GapHex(a, 4) == Some(b) && GapHex(b, 2) == Some(c)
    requires GapHex(c, 4) == Some(d) && GapHex(d, 2) == Some(rest) && (rest == "" || IsSpace(rest[0]))
    ensures CalibrationAt(maxpos + a) == Some(Calibration(Value4(maxpos), LStrip(rest)))
  {
    hide GapHex, Gap, LStrip, HexAt, HexValue, HexWord, Value4, CalibrationAt, IsSpace;
    MaxposRead(maxpos, a);
    RestRead(rest);
    CalibrationBehind(maxpos + a, a, b, c, d, rest);
  }

  lemma CalibrationBehind(s: string, a: string, b: string, c: string, d: string, rest: string)
    requires HexAt(s, 4) && s[4..] == a && GapHex(a, 4) == Some(b) && GapHex(b, 2) == Some(c)
    requires GapHex(c, 4) == Some(d) && GapHex(d, 2) == Some(rest) && (rest == "" || Gap(rest).Some?)
    ensures CalibrationAt(s) == Some(Calibration(
      ((HexValue(s[0]) * 16 + HexValue(s[1])) * 16 + HexValue(s[2])) * 16 + HexValue(s[3]),
      if rest == "" then "" else Gap(rest).value))
  {
    hide GapHex, Gap, HexValue, IsHex;
  }

  lemma MaxposRead(maxpos: string, rest: string)
    requires HexWord(maxpos, 4)
    ensures var s := maxpos + rest;
      && HexAt(s, 4) && s[4..] == rest
      && ((HexValue(s[0]) * 16 + HexValue(s[1])) * 16 + HexValue(s[2])) * 16 + HexValue(s[3]) == Value4(maxpos)
  {
    hide HexValue;
    var s := maxpos + rest;
    assert forall i :: 0 <= i < 4 ==> s[i] == maxpos[i];
  }

  lemma RestRead(rest: string)
    requires rest == "" || IsSpace(rest[0])
    ensures rest == "" ==> LStrip(rest) == ""
    ensures rest != "" ==> Gap(rest) == Some(LStrip(rest))
  {
  }

  lemma NoGap(rest: string)
    requires rest == "" || Gap(rest).Some?
    ensures rest == "" || IsSpace(rest[0])
  {
  }

  lemma ReadHasParts(name: string) returns (p: Parts)
    requires CalibrationAt(name).Some?
    ensures PartsOk(p) && name == Whole(p)
  {
    hide GapHex, Gap, HexValue, IsHex, AllSpaces, LStrip;
    var gap1, down := GapWordSplit(name[4..], 4);
    var a := GapHex(name[4..], 4).value;
    var gap2, downPulse := GapWordSplit(a, 2);
    var b := GapHex(a, 2).value;
    var gap3, up := GapWordSplit(b, 4);
    var c := GapHex(b, 4).value;
    var gap4, upPulse := GapWordSplit(c, 2);
    var d := GapHex(c, 2).value;
    p := Parts(name[..4], gap1, down, gap2, downPulse, gap3, up, gap4, upPulse, d);
    assert name == name[..4] + name[4..];
    NoGap(d);
  }

  /** A name is read as a calibration block exactly when it starts with five hexadecimal words of 4, 4, 2,
      4 and 2 digits, any spaces between them, and ends or goes on behind a space; the first word is the
      maximum position, and the rest is the name. */
  lemma CalibrationIff(name: string)
    ensures CalibrationAt(name).Some? <==> exists p :: PartsOk(p) && name == Whole(p)
    ensures forall p :: PartsOk(p) && name == Whole(p) ==>
      CalibrationAt(name) == Some(Calibration(Value4(p.maxpos), LStrip(p.rest)))
  {
    hide CalibrationAt, Whole;
    if CalibrationAt(name).Some? { var p := ReadHasParts(name); }
    forall p | PartsOk(p) && name == Whole(p)
      ensures CalibrationAt(name) == Some(Calibration(Value4(p.maxpos), LStrip(p.rest)))
    {
      PartsAreRead(p);
    }
  }

  // ---------------------------------------------------------------- labels

  /** A lone U, in either case, at the start of a name. */
  lemma StartsWithUMeans(name: string)
    ensures StartsWithU(name) <==>
      (name != "" && (name[0] == 'u' || name[0] == 'U')
        && (|name| == 1 || !(IsLetter(name[1]) || name[1] in "0123456789_")))
  {
    if |name| > 1 { WordMeans(name[1]); }
  }

  /** The type of each label. */
  lemma LabelsAre(rest: string)
    requires TailOk(rest)
    ensures LabelAt("switch" + rest) == Some(Label(1, rest)) && LabelAt("dimmer" + rest) == Some(Label(3, rest))
    ensures LabelAt("generic" + rest) == Some(Label(11, rest)) && LabelAt("alarm board" + rest) == Some(Label(14, rest))
    ensures LabelAt("cover U" + rest) == Some(Label(18, rest)) && LabelAt("coverpct U" + rest) == Some(Label(19, rest))
    ensures rest == "" || !StartsWithU(rest[1..]) ==>
      LabelAt("cover" + rest) == Some(Label(8, rest)) && LabelAt("coverpct" + rest) == Some(Label(9, rest))
  {
    hide LabelAt, StartsWithU;
    LabelTexts();
    PlainLabel(1, rest);
    PlainLabel(3, rest);
    PlainLabel(11, rest);
    AlarmLabel(rest);
    CoverULabel(18, rest);
    CoverULabel(19, rest);
    CoverLabel(8, rest);
    CoverLabel(9, rest);
  }

  lemma LabelTexts()
    ensures LabelText(1) == "switch" && LabelText(3) == "dimmer" && LabelText(11) == "generic"
    ensures LabelText(8) == "cover" && LabelText(9) == "coverpct"
    ensures LabelText(18) == "cover U" && LabelText(19) == "coverpct U"
  {
  }

  // ---------------------------------------------------------------- rows

  /** Spaces before the bus id and before the label do not matter, and the bus id is upper-cased. */
  lemma SpacedRow(lead: string, busId: string, gap: string, text: string)
    requires AllSpaces(lead) && AllSpaces(gap) && HexWord(busId, 2) && (text == "" || !IsSpace(text[0]))
    ensures FirmwareDevice(lead + (busId + (gap + text))) ==
      match LabelAt(text) case Some(row) => Some(RowDevice(UpperAll(busId), row)) case None => None
  {
    hide LStrip, LabelAt, RowDevice, UpperAll, IsSpace, AllSpaces;
    var s := busId + (gap + text);
    assert IsHex(busId[0]) && s[0] == busId[0] && s[1] == busId[1];
    HexIsVisible(busId[0]);
    LStripSpaces(lead, s);
    LStripVisibleOnly(s);
    assert s[..2] == busId && s[2..] == gap + text;
    LStripSpaces(gap, text);
    if text == "" { EmptyStripped(); } else { LStripVisibleOnly(text); }
  }

  lemma EmptyStripped()
    ensures LStrip("") == ""
  {
  }

  // ---------------------------------------------------------------- a table

  lemma ShortNumbers()
    ensures ShowInt(9) == "9" && ShowInt(8) == "8" && ShowInt(100) == "100" && ShowInt(255) == "255"
  {
    assert 100 / 10 == 10 && 10 / 10 == 1 && 255 / 10 == 25 && 25 / 10 == 2;
    assert Digits(10) == "10" && Digits(25) == "25";
  }

  function Cover(busId: string, kind: int, name: string, maxpos: int): Device {
    Device(busId, Some(kind), Some(name), Some(maxpos))
  }

  lemma CoverText(busId: string, kind: int, name: string, maxpos: int)
    ensures PrintPairs(Cover(busId, kind, name, maxpos)) ==
      "busid=" + busId + ",type=" + ShowInt(kind) + ",devname=" + name + ",maxpos=" + ShowInt(maxpos)
  {
    hide ShowInt;
  }

  /** The table of the gateway's first firmware, for any two bus ids and names: a bar, two devices. */
  lemma TwoCovers(a: string, m: string, b: string, n: string)
    requires ValueOk(a) && ValueOk(m) && ValueOk(b) && ValueOk(n)
    ensures Parse("busid=" + a + ",type=" + "9" + ",devname=" + m + ",maxpos=" + "100" + "|" +
                  ("busid=" + b + ",type=" + "8" + ",devname=" + n + ",maxpos=" + "255"))
      == Ok([Device(a, Some(9), Some(m), Some(100)), Device(b, Some(8), Some(n), Some(255))])
  {
    hide Parse, PrintPairs, ShowInt, Join, ValueOk, Digits;
    var devices := [Cover(a, 9, m, 100), Cover(b, 8, n, 255)];
    ShortNumbers();
    CoverText(a, 9, m, 100);
    CoverText(b, 8, n, 255);
    ShortDigits();
    PairsTableRoundTrip(devices, '|');
    TwoLines(PrintPairs(devices[0]), PrintPairs(devices[1]));
    assert PrintAllPairs(devices) == [PrintPairs(devices[0]), PrintPairs(devices[1])];
  }

  lemma ShortDigits()
    ensures |Digits(9)| <= 4 && |Digits(8)| <= 4 && |Digits(100)| <= 4 && |Digits(255)| <= 4
  {
    hide Digits;
    ShortNumbers();
  }

  lemma TwoLines(a: string, b: string)
    ensures Join([a, b], '|') == a + "|" + b
  {
    assert [a, b][1..] == [b];
  }
}
