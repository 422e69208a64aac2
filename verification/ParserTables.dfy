/** Whole device tables: round trips for both formats, and parsing line by line. */
module ParserTables {
  import opened Common
  import opened Text
  import opened Parsers
  import opened ParserLines
  import opened ParserPairs
  import opened ParserRows
  import opened ParserRoundTrip

  // ---------------------------------------------------------------- firmware tables

  predicate RowsOk(rows: seq<Row>) {
    forall i :: 0 <= i < |rows| ==> RowOk(rows[i])
  }

  function PrintRows(rows: seq<Row>): (lines: seq<string>)
    requires RowsOk(rows)
    ensures |lines| == |rows| && forall i :: 0 <= i < |rows| ==> lines[i] == PrintRow(rows[i])
  {
    seq(|rows|, i requires 0 <= i < |rows| => PrintRow(rows[i]))
  }

  function ShownRows(rows: seq<Row>): (lines: seq<string>)
    requires RowsOk(rows)
    ensures |lines| == |rows| && forall i :: 0 <= i < |rows| ==> lines[i] == Shown(rows[i])
  {
    seq(|rows|, i requires 0 <= i < |rows| => Shown(rows[i]))
  }

  function DevicesOf(rows: seq<Row>): (devices: seq<Device>)
    ensures |devices| == |rows| && forall i :: 0 <= i < |rows| ==> devices[i] == DeviceOf(rows[i])
  {
    seq(|rows|, i requires 0 <= i < |rows| => DeviceOf(rows[i]))
  }

  predicate AllUnambiguous(rows: seq<Row>) {
    forall i :: 0 <= i < |rows| ==> Unambiguous(rows[i])
  }

  lemma {:induction false} ShownRowsRead(rows: seq<Row>)
    requires RowsOk(rows)
    ensures ParseRecords(ShownRows(rows)) == Ok(DevicesOf(rows)) <==> AllUnambiguous(rows)
    ensures ParseRecords(ShownRows(rows)).Ok? ==> |ParseRecords(ShownRows(rows)).value| == |rows|
  {
    hide ParseRecord, RowOk, Unambiguous, Shown, DeviceOf;
    if rows != [] {
      var rest := rows[1..];
      assert forall i :: 0 <= i < |rest| ==> rest[i] == rows[i + 1];
      RowRoundTripIff(rows[0]);
      ShownRowsRead(rest);
      assert ShownRows(rows)[1..] == ShownRows(rest);
      assert DevicesOf(rows) == [DeviceOf(rows[0])] + DevicesOf(rest);
      var first, others := ParseRecord(Shown(rows[0])), ParseRecords(ShownRows(rest));
      assert ParseRecords(ShownRows(rows)) == Both(first, others);
      if first.Ok? && others.Ok? {
        SplitsAsOne(first.value, others.value, DeviceOf(rows[0]), DevicesOf(rest));
      }
      assert AllUnambiguous(rows) <==> Unambiguous(rows[0]) && AllUnambiguous(rest);
    }
  }

  lemma SplitsAsOne(a: seq<Device>, b: seq<Device>, d: Device, ds: seq<Device>)
    requires |a| == 1
    ensures a + b == [d] + ds <==> a == [d] && b == ds
  {
    if a + b == [d] + ds {
      assert a == (a + b)[..1] && b == (a + b)[1..];
      assert [d] == ([d] + ds)[..1] && ds == ([d] + ds)[1..];
    }
  }

  /** A printed table of firmware rows, of any length, is read back as the devices it was printed
      from exactly when no name in it imitates a pair, a U or a calibration block. */
  lemma TableRoundTripIff(rows: seq<Row>, separator: char)
    requires RowsOk(rows) && (separator == '\n' || separator == '|')
    ensures Parse(Join(PrintRows(rows), separator)) == Ok(DevicesOf(rows)) <==> AllUnambiguous(rows)
  {
    hide Parse, Collapse, RowOk, PrintRow, Shown, ParseRecords, CleanLine, DeviceOf, Unambiguous, AllUnambiguous;
    forall i | 0 <= i < |rows|
      ensures Collapse(false, PrintRow(rows[i])) == Shown(rows[i]) && CleanLine(Shown(rows[i]))
    {
      CollapseRow(rows[i]);
    }
    ParseJoined(PrintRows(rows), separator);
    assert CollapseAll(PrintRows(rows)) == ShownRows(rows);
    ShownRowsRead(rows);
  }

  // ---------------------------------------------------------------- key/value tables

  predicate AllPairsOk(devices: seq<Device>) {
    forall i :: 0 <= i < |devices| ==> PairsOk(devices[i])
  }

  function PrintAllPairs(devices: seq<Device>): (lines: seq<string>)
    ensures |lines| == |devices| && forall i :: 0 <= i < |devices| ==> lines[i] == PrintPairs(devices[i])
  {
    seq(|devices|, i requires 0 <= i < |devices| => PrintPairs(devices[i]))
  }

  lemma KeyIsNeat(key: Key)
    ensures Neat("," + (KeyText(key) + "="))
  {
  }

  lemma FieldIsNeat(key: Key, value: Option<string>)
    requires value.Some? ==> ValueOk(value.value)
    ensures Neat(Field(key, value))
    ensures Field(key, value) != "" ==> Field(key, value)[0] == ',' && !IsSpace(Field(key, value)[|Field(key, value)| - 1])
  {
    hide KeyText;
    if value.Some? {
      KeyIsNeat(key);
      NeatConcat("," + (KeyText(key) + "="), value.value);
      assert Field(key, value) == ("," + (KeyText(key) + "=")) + value.value;
    }
  }

  lemma NeatConcat(a: string, b: string)
    requires Neat(a) && Neat(b) && (b != "" ==> !IsBlank(b[0]))
    ensures Neat(a + b)
  {
  }

  lemma PairsAreNeat(d: Device)
    requires PairsOk(d)
    ensures CleanLine(PrintPairs(d)) && Collapse(false, PrintPairs(d)) == PrintPairs(d)
  {
    hide Neat, ShowInt, Field, Collapse, Tidy, Unseparated, ValueOk;
    var f1, f2, f3 := Field(Type, ShowOption(d.kind)), Field(DevName, d.name), Field(MaxPos, ShowOption(d.maxpos));
    if d.kind.Some? { ShowIntOk(d.kind.value); }
    if d.maxpos.Some? { ShowIntOk(d.maxpos.value); }
    FieldIsNeat(Type, ShowOption(d.kind));
    FieldIsNeat(DevName, d.name);
    FieldIsNeat(MaxPos, ShowOption(d.maxpos));
    BusIdIsNeat(d.busId);
    var head := "busid=" + d.busId;
    NeatConcat(head, f1);
    NeatConcat(head + f1, f2);
    NeatConcat(head + f1 + f2, f3);
    var s := PrintPairs(d);
    assert s == head + f1 + f2 + f3;
    assert s[0] == 'b' && !IsSpace(s[|s| - 1]);
    NeatLine(s);
  }

  lemma NeatLine(s: string)
    requires Neat(s) && Trimmed(s)
    ensures CleanLine(s) && Collapse(false, s) == s
  {
    CollapseTidy(false, s);
  }

  lemma BusIdIsNeat(busId: string)
    requires ValueOk(busId)
    ensures Neat("busid=" + busId) && !IsSpace(("busid=" + busId)[|busId| + 5])
  {
    var s := "busid=" + busId;
    assert forall i :: 6 <= i < |s| ==> s[i] == busId[i - 6];
  }

  predicate AllConvertible(devices: seq<Device>) {
    forall i :: 0 <= i < |devices| ==> Convertible(devices[i].kind) && Convertible(devices[i].maxpos)
  }

  lemma {:induction false} AllPairsRead(devices: seq<Device>)
    requires AllPairsOk(devices)
    ensures ParseRecords(PrintAllPairs(devices)) == if AllConvertible(devices) then Ok(devices) else Raised
  {
    hide ParseRecord, PairsOk, PrintPairs, Convertible;
    if devices != [] {
      PairsRoundTrip(devices[0]);
      assert forall i :: 0 <= i < |devices| - 1 ==> devices[1..][i] == devices[i + 1];
      AllPairsRead(devices[1..]);
      assert PrintAllPairs(devices)[1..] == PrintAllPairs(devices[1..]);
      assert devices == [devices[0]] + devices[1..];
      assert AllConvertible(devices) <==>
        Convertible(devices[0].kind) && Convertible(devices[0].maxpos) && AllConvertible(devices[1..]);
    }
  }

  /** A printed table of key/value rows, of any length, is read back unchanged, unless one of its
      numbers has more digits than `int` takes. */
  lemma PairsTableRoundTrip(devices: seq<Device>, separator: char)
    requires AllPairsOk(devices) && (separator == '\n' || separator == '|')
    ensures Parse(Join(PrintAllPairs(devices), separator)) == if AllConvertible(devices) then Ok(devices) else Raised
  {
    hide Parse, Collapse, ParseRecords, CleanLine, PairsOk, PrintPairs, AllConvertible;
    forall i | 0 <= i < |devices|
      ensures CleanLine(PrintPairs(devices[i])) && Collapse(false, PrintPairs(devices[i])) == PrintPairs(devices[i])
    {
      PairsAreNeat(devices[i]);
    }
    ParseJoined(PrintAllPairs(devices), separator);
    assert CollapseAll(PrintAllPairs(devices)) == PrintAllPairs(devices);
    AllPairsRead(devices);
  }
}
