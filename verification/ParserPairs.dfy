/** Key/value rows: parsing undoes printing. */
module ParserPairs {
  import opened Common
  import opened Text
  import opened Parsers
  import opened ParserLines

  // ---------------------------------------------------------------- integers

  function DigitChar(d: nat): (c: char)
    requires d < 10
    ensures IsDigit(c) && DigitValue(c) == d
  {
    '0' + d as char
  }

  function Digits(n: nat): string {
    if n < 10 then [DigitChar(n)] else Digits(n / 10) + [DigitChar(n % 10)]
  }

  function ShowInt(n: int): string {
    if n < 0 then "-" + Digits(-n) else Digits(n)
  }

  lemma {:induction false} DigitsRead(n: nat)
    ensures AllDigits(Digits(n)) && Digits(n) != "" && Decimal(Digits(n)) == n
  {
    if n < 10 {
      assert Digits(n)[..0] == "";
    } else {
      DigitsRead(n / 10);
      assert Digits(n)[..|Digits(n)| - 1] == Digits(n / 10);
    }
  }

  lemma ShowIntChars(n: int)
    ensures var s := ShowInt(n);
      Trimmed(s) && forall i :: 0 <= i < |s| ==> s[i] == '-' || IsDigit(s[i])
  {
    hide Digits, Decimal;
    DigitsRead(if n < 0 then -n else n);
  }

  lemma ShowIntShape(n: int)
    ensures var s := ShowInt(n);
      && Trimmed(s) && |s| >= 1
      && Undash(s) == Digits(if n < 0 then -n else n)
      && |s| == |Digits(if n < 0 then -n else n)| + if n < 0 then 1 else 0
  {
    hide Digits, Decimal;
    var digits := Digits(if n < 0 then -n else n);
    DigitsRead(if n < 0 then -n else n);
    assert IsDigit(digits[0]) && IsDigit(digits[|digits| - 1]);
    if n < 0 { assert ("-" + digits)[1..] == digits; }
  }

  lemma ShowIntOk(n: int)
    ensures ValueOk(ShowInt(n))
  {
    hide ShowInt, Trimmed;
    ShowIntChars(n);
  }

  lemma ShowIntParts(n: int)
    ensures var s, digits := ShowInt(n), Digits(if n < 0 then -n else n);
      s != "" && Strip(s) == s && Undash(s) == digits && |s| == |digits| + if n < 0 then 1 else 0
  {
    hide Digits, Strip, Undash, ShowInt;
    ShowIntShape(n);
    TrimmedStrip(ShowInt(n));
  }

  /** An integer that Python's `int` reads back. */
  predicate Convertible(n: Option<int>) {
    n.Some? ==> |Digits(if n.value < 0 then -n.value else n.value)| <= MAX_INT_DIGITS
  }

  lemma IntRead(n: int)
    ensures IntField(Some(ShowInt(n))) == if Convertible(Some(n)) then Ok(Some(n)) else Raised
    ensures ValueOk(ShowInt(n))
  {
    hide Digits, Decimal, Strip, Undash, ShowInt, ValueOk, AllDigits;
    ShowIntOk(n);
    ShowIntParts(n);
    DigitsRead(if n < 0 then -n else n);
  }

  // ---------------------------------------------------------------- pairs

  /** What can stand behind a key: trimmed, without commas, semicolons or record separators, and
      with single spaces only. */
  predicate ValueOk(v: string) {
    CleanLine(v) && Tidy(v) && forall i :: 0 <= i < |v| ==> v[i] != ',' && v[i] != ';'
  }

  lemma {:induction false} BodyOf(v: string, tail: string)
    requires forall i :: 0 <= i < |v| ==> !IsStop(v[i])
    requires tail == "" || IsStop(tail[0])
    ensures Body(v + tail) == v
  {
    if v == "" {
      assert v + tail == tail;
    } else {
      assert (v + tail)[1..] == v[1..] + tail;
      assert forall i :: 0 <= i < |v| - 1 ==> v[1..][i] == v[i + 1];
      BodyOf(v[1..], tail);
    }
  }

  lemma ValueRead(v: string, tail: string)
    requires ValueOk(v) && (tail == "" || IsStop(tail[0]))
    ensures ValueAt("=" + v + tail) == Some(Match(v, tail))
  {
    var s := "=" + v + tail;
    assert LStrip(s) == s;
    assert s[1..] == v + tail;
    BodyOf(v, tail);
    assert (v + tail)[|v|..] == tail;
    TrimmedStrip(v);
  }

  lemma KeyRead(key: Key, tail: string)
    ensures KeyAt(KeyText(key) + "=" + tail) == Some(key)
  {
    hide Begins;
    var s := KeyText(key) + "=" + tail;
    BeginsAsWritten(KeyText(key), "=" + tail);
    assert s == KeyText(key) + ("=" + tail);
    NotBegins(s, "busid", if key.Bus_Id? then 3 else 0);
    NotBegins(s, "bus_id", if key.BusId? then 3 else 0);
    NotBegins(s, "id", 0);
    NotBegins(s, "type", 0);
    NotBegins(s, "devname", 0);
    NotBegins(s, "name", 0);
    NotBegins(s, "maxpos", 0);
  }

  lemma PairRead(key: Key, v: string, tail: string)
    requires ValueOk(v) && (tail == "" || IsStop(tail[0]))
    ensures FindPairs(false, KeyText(key) + "=" + v + tail) == [Pair(key, v)] + FindPairs(false, tail)
  {
    hide KeyAt, ValueAt, FindPairs, ValueOk, KeyText, Begins;
    var s := KeyText(key) + "=" + v + tail;
    assert s == KeyText(key) + "=" + (v + tail);
    KeyRead(key, v + tail);
    assert s[|KeyText(key)|..] == "=" + v + tail;
    ValueRead(v, tail);
    FindMatch(s, Match(v, tail));
  }

  lemma StopSkipped(s: string)
    ensures FindPairs(false, "," + s) == FindPairs(false, s)
  {
    hide FindPairs;
    assert ("," + s)[1..] == s;
    NoKeyAt("," + s);
    FindSkip(false, "," + s);
  }

  function Field(key: Key, value: Option<string>): string {
    if value.None? then "" else "," + (KeyText(key) + "=" + value.value)
  }

  function FieldPairs(key: Key, value: Option<string>): seq<Pair> {
    if value.None? then [] else [Pair(key, value.value)]
  }

  lemma FieldRead(key: Key, value: Option<string>, tail: string)
    requires value.Some? ==> ValueOk(value.value)
    requires tail == "" || IsStop(tail[0])
    ensures FindPairs(false, Field(key, value) + tail) == FieldPairs(key, value) + FindPairs(false, tail)
    ensures Field(key, value) + tail == "" || IsStop((Field(key, value) + tail)[0])
  {
    hide FindPairs, ValueOk, KeyText;
    if value.Some? {
      var x := KeyText(key) + "=" + value.value;
      assert Field(key, value) + tail == "," + (x + tail);
      StopSkipped(x + tail);
      PairRead(key, value.value, tail);
    } else {
      assert Field(key, value) + tail == tail;
    }
  }

  function ShowOption(n: Option<int>): Option<string> {
    if n.None? then None else Some(ShowInt(n.value))
  }

  function PrintPairs(d: Device): string {
    "busid=" + d.busId + Field(Type, ShowOption(d.kind)) + Field(DevName, d.name) + Field(MaxPos, ShowOption(d.maxpos))
  }

  predicate PairsOk(d: Device) {
    ValueOk(d.busId) && (d.name.Some? ==> ValueOk(d.name.value))
  }

  lemma BusIdText()
    ensures KeyText(BusId) == "busid"
  {
  }

  lemma NothingFound()
    ensures FindPairs(false, "") == []
  {
  }

  lemma PairsFound(d: Device)
    requires PairsOk(d)
    ensures FindPairs(false, PrintPairs(d)) ==
      [Pair(BusId, d.busId)] + FieldPairs(Type, ShowOption(d.kind)) + FieldPairs(DevName, d.name)
      + FieldPairs(MaxPos, ShowOption(d.maxpos))
  {
    hide FindPairs, ShowInt, IntField, ValueOk, Field, FieldPairs, KeyText;
    assert KeyText(BusId) == "busid" by { BusIdText(); }
    if d.kind.Some? { IntRead(d.kind.value); }
    if d.maxpos.Some? { IntRead(d.maxpos.value); }
    var t3 := Field(MaxPos, ShowOption(d.maxpos));
    var t2 := Field(DevName, d.name) + t3;
    var t1 := Field(Type, ShowOption(d.kind)) + t2;
    assert t3 + "" == t3;
    FieldRead(MaxPos, ShowOption(d.maxpos), "");
    FieldRead(DevName, d.name, t3);
    FieldRead(Type, ShowOption(d.kind), t2);
    assert PrintPairs(d) == KeyText(BusId) + "=" + d.busId + t1;
    PairRead(BusId, d.busId, t1);
    NothingFound();
  }

  lemma GetSkips(pairs: seq<Pair>, key: Key, value: Option<string>, wanted: Key)
    ensures Get(pairs + FieldPairs(key, value), wanted) ==
      if key == wanted && value.Some? then value else Get(pairs, wanted)
  {
    if value.Some? {
      assert (pairs + FieldPairs(key, value))[..|pairs|] == pairs;
    } else {
      assert pairs + FieldPairs(key, value) == pairs;
    }
  }

  lemma PairsGot(d: Device, wanted: Key)
    requires PairsOk(d)
    ensures Get(FindPairs(false, PrintPairs(d)), wanted) ==
      match wanted
      case BusId => Some(d.busId)
      case Type => ShowOption(d.kind)
      case DevName => d.name
      case MaxPos => ShowOption(d.maxpos)
      case _ => None
  {
    hide FindPairs, PairsOk, ShowInt;
    PairsFound(d);
    var p0 := [Pair(BusId, d.busId)];
    var p1 := p0 + FieldPairs(Type, ShowOption(d.kind));
    var p2 := p1 + FieldPairs(DevName, d.name);
    GetSkips(p2, MaxPos, ShowOption(d.maxpos), wanted);
    GetSkips(p1, DevName, d.name, wanted);
    GetSkips(p0, Type, ShowOption(d.kind), wanted);
    assert p0[..0] == [];
  }

  /** A printed key/value row is read back as the device it was printed from, and raises when one of
      its numbers is too long. */
  lemma PairsRoundTrip(d: Device)
    requires PairsOk(d)
    ensures ParseRecord(PrintPairs(d)) == if Convertible(d.kind) && Convertible(d.maxpos) then Ok([d]) else Raised
  {
    hide FindPairs, FirmwareDevice, PrintPairs, IntField;
    PairsGot(d, BusId);
    PairsGot(d, Bus_Id);
    PairsGot(d, Id);
    PairsGot(d, Type);
    PairsGot(d, DevName);
    PairsGot(d, Name);
    PairsGot(d, MaxPos);
    if d.kind.Some? { IntRead(d.kind.value); }
    if d.maxpos.Some? { IntRead(d.maxpos.value); }
    NoField();
  }

  lemma NoField()
    ensures IntField(None) == Ok(None)
  {
  }
}
