/** When parsing raises: what the values of a row must look like, record by record and text by
text. */
module ParserRaises {
  import opened Common
  import opened Text
  import opened Parsers
  import opened ParserLines
  import opened ParserPairs
  import opened ParserRoundTrip
  import opened ParserRows

  /** `dashes` dashes and at least one digit, nothing else. */
  predicate DashedDigits(v: string, dashes: nat) {
    && dashes < |v|
    && (forall i :: 0 <= i < dashes ==> v[i] == '-')
    && forall i :: dashes <= i < |v| ==> IsDigit(v[i])
  }

  /** Dashes before digits: what the digit test lets through. */
  ghost predicate LooksLikeInt(field: Option<string>) {
    field.Some? && exists dashes :: DashedDigits(Strip(field.value), dashes)
  }

  predicate RefusedInt(v: string, dashes: nat) {
    DashedDigits(v, dashes) && (dashes >= 2 || |v| - dashes > MAX_INT_DIGITS)
  }

  /** Of these, what `int` does not take: two dashes or more, or too many digits. */
  ghost predicate Refused(field: Option<string>) {
    field.Some? && exists dashes :: RefusedInt(Strip(field.value), dashes)
  }

  lemma UndashIsUnique(v: string, dashes: nat)
    requires DashedDigits(v, dashes)
    ensures |Undash(v)| == |v| - dashes && AllDigits(Undash(v))
  {
    var r := Undash(v);
    var n := |v| - |r|;
    assert r != "" ==> r[0] == v[n];
    assert IsDigit(v[dashes]);
    assert n == dashes;
    assert forall i :: 0 <= i < |r| ==> r[i] == v[dashes + i];
  }

  lemma UndashIsDashed(v: string)
    requires Undash(v) != "" && AllDigits(Undash(v))
    ensures DashedDigits(v, |v| - |Undash(v)|)
  {
    var r := Undash(v);
    assert forall i :: |v| - |r| <= i < |v| ==> v[i] == r[i - (|v| - |r|)];
  }

  lemma TestPassed(v: string)
    ensures Undash(v) != "" && AllDigits(Undash(v)) <==> exists dashes :: DashedDigits(v, dashes)
    ensures Undash(v) != "" && AllDigits(Undash(v)) && (|Undash(v)| > MAX_INT_DIGITS || |v| >= |Undash(v)| + 2)
      <==> exists dashes :: RefusedInt(v, dashes)
  {
    hide Undash, AllDigits, DashedDigits;
    var digits := Undash(v);
    if digits != "" && AllDigits(digits) {
      UndashIsDashed(v);
      assert RefusedInt(v, |v| - |digits|) <==> |digits| > MAX_INT_DIGITS || |v| >= |digits| + 2;
    }
    if dashes :| DashedDigits(v, dashes) {
      UndashIsUnique(v, dashes);
      NotJustDashes(v, dashes);
    }
    forall dashes | RefusedInt(v, dashes)
      ensures digits != "" && AllDigits(digits) && (|digits| > MAX_INT_DIGITS || |v| >= |digits| + 2)
    {
      UndashIsUnique(v, dashes);
      NotJustDashes(v, dashes);
    }
  }

  lemma NotJustDashes(v: string, dashes: nat)
    requires DashedDigits(v, dashes)
    ensures dashes < |v|
  {
  }

  /** A field is left out iff it does not look like an integer, and raises iff it is refused. */
  lemma IntFieldCases(field: Option<string>)
    ensures IntField(field) == Ok(None) <==> !LooksLikeInt(field)
    ensures IntField(field).Raised? <==> Refused(field)
  {
    hide Undash, AllDigits, DashedDigits, RefusedInt, Decimal, Strip;
    if field.Some? {
      TestPassed(Strip(field.value));
      EmptyField();
    }
  }

  lemma EmptyField()
    ensures Strip("") == "" && Undash("") == ""
  {
  }

  ghost predicate IntsRaise(pairs: seq<Pair>) {
    Refused(Get(pairs, Type)) || Refused(Get(pairs, MaxPos))
  }

  lemma PairsDeviceCases(pairs: seq<Pair>, busId: string)
    ensures PairsDevice(pairs, busId).Raised? <==> IntsRaise(pairs)
    ensures PairsDevice(pairs, busId).Ok? ==> var d := PairsDevice(pairs, busId).value;
      d.busId == busId && Ok(d.kind) == IntField(Get(pairs, Type)) && Ok(d.maxpos) == IntField(Get(pairs, MaxPos))
      && d.name == Or(Get(pairs, DevName), Get(pairs, Name))
  {
    hide IntField, Refused, Get;
    IntFieldCases(Get(pairs, Type));
    IntFieldCases(Get(pairs, MaxPos));
  }

  /** A row that raises: its bus id is there, and its type or its maximum position is refused. */
  ghost predicate RowRaises(record: string) {
    var pairs := FindPairs(false, record);
    Truthy(BusIdOf(pairs)) && IntsRaise(pairs)
  }

  lemma RecordRaisesIff(record: string)
    ensures ParseRecord(record).Raised? <==> RowRaises(record)
  {
    hide FindPairs, FirmwareDevice, PairsDevice, IntsRaise, BusIdOf;
    var pairs := FindPairs(false, record);
    if Truthy(BusIdOf(pairs)) { PairsDeviceCases(pairs, BusIdOf(pairs).value); }
  }

  ghost predicate SomeRaises(records: seq<string>) {
    exists i :: 0 <= i < |records| && RowRaises(records[i])
  }

  lemma {:induction false} RecordsRaiseIff(records: seq<string>)
    ensures ParseRecords(records).Raised? <==> SomeRaises(records)
  {
    hide ParseRecord, RowRaises;
    if records != [] {
      RecordRaisesIff(records[0]);
      RecordsRaiseIff(records[1..]);
      if i :| 0 <= i < |records| && RowRaises(records[i]) {
        if i > 0 { assert records[1..][i - 1] == records[i]; }
      }
      if i :| 0 <= i < |records| - 1 && RowRaises(records[1..][i]) { assert records[i + 1] == records[1..][i]; }
    }
  }

  /** A text raises iff one of its records does. */
  ghost predicate Raises(body: string) {
    SomeRaises(Records("", Plain(body)))
  }

  lemma ParseRaisesIff(body: string)
    ensures Parse(body).Raised? <==> Raises(body)
  {
    hide ParseRecords, SomeRaises, Records, Plain;
    RecordsRaiseIff(Records("", Plain(body)));
  }

  // ---------------------------------------------------------------- an input that raises

  lemma DoubleDashPairs()
    ensures FindPairs(false, "id=1,type=--5") == [Pair(Id, "1"), Pair(Type, "--5")]
  {
    hide FindPairs, ValueOk, KeyAt, KeyText;
    ShortValues();
    assert KeyText(Id) == "id" && KeyText(Type) == "type" by { KeyTexts(); }
    var t := ",type=--5";
    assert "id=1,type=--5" == KeyText(Id) + "=" + "1" + t;
    PairRead(Id, "1", t);
    assert t == "," + "type=--5";
    StopSkipped("type=--5");
    assert "type=--5" == KeyText(Type) + "=" + "--5" + "";
    PairRead(Type, "--5", "");
    NothingFound();
  }

  lemma KeyTexts()
    ensures KeyText(Id) == "id" && KeyText(Type) == "type"
  {
  }

  lemma ShortValues()
    ensures ValueOk("1") && ValueOk("--5") && RefusedInt("--5", 2) && Strip("--5") == "--5"
  {
  }

  lemma TwoPairs(pairs: seq<Pair>, id: string, kind: string)
    requires pairs == [Pair(Id, id), Pair(Type, kind)] && id != ""
    ensures Truthy(BusIdOf(pairs)) && Get(pairs, Type) == Some(kind)
  {
    assert pairs[..1] == [Pair(Id, id)];
    assert pairs[..1][..0] == [];
    assert Get(pairs, Id) == Get(pairs[..1], Id) == Some(id);
  }

  lemma RefusedRow(record: string, id: string, kind: string)
    requires FindPairs(false, record) == [Pair(Id, id), Pair(Type, kind)] && id != ""
    requires RefusedInt(Strip(kind), 2)
    ensures RowRaises(record)
  {
    hide FindPairs, RefusedInt, Get, BusIdOf, Strip;
    TwoPairs(FindPairs(false, record), id, kind);
  }

  lemma NamedRowRaises(row: Row, id: string, kind: string)
    requires RowOk(row) && row.name.Some? && id != "" && RefusedInt(Strip(kind), 2)
    requires FindPairs(false, row.name.value) == [Pair(Id, id), Pair(Type, kind)]
    ensures Parse(PrintRow(row)).Raised?
  {
    hide Parse, Shown, PrintRow, RowRaises, Collapse, CleanLine, ParseRecords, FindPairs, RefusedInt, RowOk;
    RowPairs(row);
    CollapseRow(row);
    RefusedRow(Shown(row), id, kind);
    ParseJoined([PrintRow(row)], '\n');
    RecordsRaiseIff([Shown(row)]);
    assert CollapseAll([PrintRow(row)]) == [Shown(row)];
  }

  lemma DoubleDashShape()
    ensures NameOk("id=1,type=--5") && BusIdOk("24")
  {
    assert UpperAll("24") == "24";
  }

  /** Two inputs that raise: a key/value row with a doubly negated type, and a switch of that name. */
  lemma DoubleDashRaises()
    ensures Parse("id=1,type=--5").Raised?
    ensures var row := Row("24", 1, None, Some("id=1,type=--5")); RowOk(row) && Parse(PrintRow(row)).Raised?
  {
    hide Parse, FindPairs, PrintRow, NameOk, BusIdOk, RefusedInt, Strip;
    var line := "id=1,type=--5";
    DoubleDashShape();
    DoubleDashPairs();
    ShortValues();
    NamedRowRaises(Row("24", 1, None, Some(line)), "1", "--5");
    LineRaises(line, "1", "--5");
  }

  lemma LineRaises(line: string, id: string, kind: string)
    requires NameOk(line) && id != "" && RefusedInt(Strip(kind), 2)
    requires FindPairs(false, line) == [Pair(Id, id), Pair(Type, kind)]
    ensures Parse(line).Raised?
  {
    hide Parse, RowRaises, Collapse, CleanLine, ParseRecords, FindPairs, RefusedInt;
    RefusedRow(line, id, kind);
    CollapseTidy(false, line);
    ParseJoined([line], '\n');
    RecordsRaiseIff([line]);
    assert CollapseAll([line]) == [line];
  }
}
