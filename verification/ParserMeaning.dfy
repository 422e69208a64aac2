/** What the pieces of the parser mean, in terms of the characters of the text. */
module ParserMeaning {
  import opened Common
  import opened Text
  import opened Parsers
  import opened ParserLines
  import opened ParserPairs
  import opened ParserRaises
  import opened ParserRows
  import opened ParserRoundTrip

  // ---------------------------------------------------------------- records

  predicate NoneOf(s: string, c: char, d: char) {
    forall i :: 0 <= i < |s| ==> s[i] != c && s[i] != d
  }

  lemma {:induction false} RecordsJoined(run: string, a: string, c: char, b: string)
    requires c == '\n' || c == '|'
    ensures Records(run, a + [c] + b) == Records(run, a) + Records("", b)
    decreases |a|
  {
    var s := a + [c] + b;
    if a == "" {
      assert s == [c] + b && s[1..] == b;
    } else {
      assert s[1..] == a[1..] + [c] + b;
      RecordsJoined(if IsSeparator(a[0]) then "" else run + [a[0]], a[1..], c, b);
    }
  }

  /** Newlines and bars separate records, nothing else does: what is found between two texts is found
      in one or the other, and a text without them is one record, or none if it is empty. */
  lemma RecordsAre(a: string, b: string, line: string)
    requires NoneOf(line, '\n', '|')
    ensures Records("", a + "\n" + b) == Records("", a) + Records("", b)
    ensures Records("", a + "|" + b) == Records("", a) + Records("", b)
    ensures Records("", line) == if line == "" then [] else [line]
  {
    RecordsJoined("", a, '\n', b);
    RecordsJoined("", a, '|', b);
    assert line + "" == line && "" + line == line;
    RecordsOfRun("", line, "");
  }

  // ---------------------------------------------------------------- blanks

  predicate IsGap(s: string) {
    s != "" && forall i :: 0 <= i < |s| ==> s[i] in [' ', '\t', '\r', '\U{0C}', '\U{0B}']
  }

  predicate IsSolid(s: string) {
    forall i :: 0 <= i < |s| ==> s[i] !in [' ', '\t', '\r', '\U{0C}', '\U{0B}']
  }

  lemma {:induction false} CollapseGap(gap: string, tail: string)
    requires gap == "" || IsGap(gap)
    ensures Collapse(true, gap + tail) == Collapse(true, tail)
  {
    if gap == "" {
      assert gap + tail == tail;
    } else {
      assert (gap + tail)[1..] == gap[1..] + tail;
      CollapseGap(gap[1..], tail);
    }
  }

  lemma {:induction false} CollapseSolid(afterBlank: bool, word: string, tail: string)
    requires IsSolid(word)
    ensures Collapse(afterBlank, word + tail) == word + Collapse(if word == "" then afterBlank else false, tail)
    decreases |word|
  {
    if word == "" {
      assert word + tail == tail;
    } else {
      assert (word + tail)[1..] == word[1..] + tail;
      CollapseSolid(false, word[1..], tail);
      assert word == [word[0]] + word[1..];
    }
  }

  /** Every gap of spaces, tabs, carriage returns, form feeds and vertical tabs becomes one space, and
      everything else stays; a newline is no gap. */
  lemma GapsCollapse(word: string, gap: string, solid: string, tail: string)
    requires IsSolid(word) && IsGap(gap) && IsSolid(solid) && solid != ""
    ensures Collapse(false, word + gap + solid + tail) == word + " " + solid + Collapse(false, tail)
    ensures Collapse(false, word) == word && Collapse(false, word + gap) == word + " "
  {
    var rest := gap + (solid + tail);
    assert word + gap + solid + tail == word + rest;
    CollapseSolid(false, word, rest);
    assert rest[0] == gap[0] && rest[1..] == gap[1..] + (solid + tail);
    CollapseGap(gap[1..], solid + tail);
    CollapseSolid(true, solid, tail);
    assert word + "" == word && gap[1..] + "" == gap[1..];
    CollapseSolid(false, word, "");
    CollapseSolid(false, word, gap);
    CollapseGap(gap[1..], "");
  }

  // ---------------------------------------------------------------- pairs

  /** What `\s` and `strip` take for a space. */
  lemma SpacesAre(c: char)
    ensures IsSpace(c) <==> c in [' ', '\t', '\n', '\r', '\U{0B}', '\U{0C}', '\U{1C}', '\U{1D}', '\U{1E}', '\U{1F}']
  {
  }

  /** A key in any case, its separator and its value, with any spaces around them, and the stop behind. */
  datatype Field = Field(text: string, key: Key, before: string, separator: char, after: string, value: string,
                         behind: string, stop: char)

  predicate FieldOk(f: Field) {
    && LowerAll(f.text) == KeyText(f.key)
    && AllSpaces(f.before) && AllSpaces(f.after) && AllSpaces(f.behind)
    && (f.separator == ':' || f.separator == '=')
    && (f.stop == ',' || f.stop == ';')
    && Trimmed(f.value) && NoneOf(f.value, ',', ';')
  }

  predicate FieldsOk(fields: seq<Field>) {
    forall i :: 0 <= i < |fields| ==> FieldOk(fields[i])
  }

  function Padded(f: Field): string {
    f.after + f.value + f.behind
  }

  function Write(f: Field): string {
    f.text + (f.before + ([f.separator] + Padded(f)))
  }

  /** The fields of a row; the stop of the last one is left out. */
  function WriteAll(fields: seq<Field>): string {
    if fields == [] then ""
    else Write(fields[0]) + if |fields| == 1 then "" else [fields[0].stop] + WriteAll(fields[1..])
  }

  function PairsOf(fields: seq<Field>): (pairs: seq<Pair>)
    ensures |pairs| == |fields|
    ensures forall i :: 0 <= i < |fields| ==> pairs[i] == Pair(fields[i].key, fields[i].value)
  {
    seq(|fields|, i requires 0 <= i < |fields| => Pair(fields[i].key, fields[i].value))
  }

  predicate AtStop(tail: string) {
    tail == "" || tail[0] == ',' || tail[0] == ';'
  }

  lemma {:induction false} BodyIs(v: string, tail: string)
    requires NoneOf(v, ',', ';') && AtStop(tail)
    ensures Body(v + tail) == v
  {
    if v == "" {
      assert v + tail == tail;
    } else {
      assert (v + tail)[1..] == v[1..] + tail;
      BodyIs(v[1..], tail);
    }
  }

  lemma LStripVisibleOnly(s: string)
    requires s != "" && !IsSpace(s[0])
    ensures LStrip(s) == s
  {
  }

  lemma RStripVisibleOnly(s: string)
    requires Trimmed(s)
    ensures RStrip(s) == s
  {
  }

  lemma StripPadded(g: string, v: string, h: string)
    requires AllSpaces(g) && AllSpaces(h) && Trimmed(v)
    ensures Strip(g + v + h) == v
  {
    hide LStrip, RStrip, AllSpaces, IsSpace;
    assert g + v + h == g + (v + h);
    LStripSpaces(g, v + h);
    assert v + h != "" && (v + h)[0] == v[0];
    LStripVisibleOnly(v + h);
    RStripSpaces(v, h);
    RStripVisibleOnly(v);
  }

  lemma SpacesAreNoStops(g: string)
    requires AllSpaces(g)
    ensures NoneOf(g, ',', ';')
  {
    forall i | 0 <= i < |g| ensures g[i] != ',' && g[i] != ';' { assert IsSpace(g[i]); }
  }

  lemma NoneOfConcat(a: string, b: string, c: char, d: char)
    requires NoneOf(a, c, d) && NoneOf(b, c, d)
    ensures NoneOf(a + b, c, d)
  {
  }

  lemma PaddedIs(f: Field)
    requires FieldOk(f)
    ensures Padded(f) != "" && NoneOf(Padded(f), ',', ';') && Strip(Padded(f)) == f.value
  {
    hide Strip, AllSpaces, NoneOf;
    SpacesAreNoStops(f.after);
    SpacesAreNoStops(f.behind);
    NoneOfConcat(f.after, f.value, ',', ';');
    NoneOfConcat(f.after + f.value, f.behind, ',', ';');
    StripPadded(f.after, f.value, f.behind);
  }

  lemma SeparatorFound(before: string, separator: char, rest: string)
    requires AllSpaces(before) && (separator == ':' || separator == '=')
    ensures LStrip(before + ([separator] + rest)) == [separator] + rest && ([separator] + rest)[1..] == rest
  {
    LStripSpaces(before, [separator] + rest);
    LStripVisibleOnly([separator] + rest);
  }

  lemma FieldValue(f: Field, tail: string)
    requires FieldOk(f) && AtStop(tail)
    ensures ValueAt(f.before + ([f.separator] + (Padded(f) + tail))) == Some(Match(f.value, tail))
  {
    hide LStrip, Strip, Body, AllSpaces, NoneOf, Padded;
    var p := Padded(f);
    SeparatorFound(f.before, f.separator, p + tail);
    PaddedIs(f);
    BodyIs(p, tail);
    assert (p + tail)[|p|..] == tail;
  }

  lemma BeginsInAnyCase(text: string, literal: string, rest: string)
    requires LowerAll(text) == literal
    ensures Begins(text + rest, literal)
  {
    forall i | 0 <= i < |literal| ensures Lower((text + rest)[i]) == literal[i] {
      assert LowerAll(text)[i] == Lower(text[i]);
    }
  }

  lemma KeyFound(text: string, key: Key, rest: string)
    requires LowerAll(text) == KeyText(key)
    ensures KeyAt(text + rest) == Some(key)
  {
    hide Begins, LowerAll;
    var s := text + rest;
    BeginsInAnyCase(text, KeyText(key), rest);
    KeysDiffer(s, key);
  }

  lemma KeysDiffer(s: string, key: Key)
    requires Begins(s, KeyText(key))
    ensures KeyAt(s) == Some(key)
  {
    var k := KeyText(key);
    assert Lower(s[0]) == k[0];
    hide Begins;
    NotBegins(s, "busid", if key.Bus_Id? then 3 else 0);
    NotBegins(s, "bus_id", if key.BusId? then 3 else 0);
    NotBegins(s, "id", 0);
    NotBegins(s, "type", 0);
    NotBegins(s, "devname", 0);
    NotBegins(s, "name", 0);
    NotBegins(s, "maxpos", 0);
  }

  lemma FieldFound(f: Field, tail: string)
    requires FieldOk(f) && AtStop(tail)
    ensures FindPairs(false, Write(f) + tail) == [Pair(f.key, f.value)] + FindPairs(false, tail)
  {
    hide KeyAt, ValueAt, FindPairs, KeyText, AllSpaces, NoneOf, Padded, LowerAll, Trimmed;
    var rest := f.before + ([f.separator] + (Padded(f) + tail));
    var s := f.text + rest;
    assert Write(f) + tail == s;
    KeyFound(f.text, f.key, rest);
    assert s[|KeyText(f.key)|..] == rest;
    FieldValue(f, tail);
    FindMatch(s, Match(f.value, tail));
  }

  lemma StopPassed(stop: char, s: string)
    requires stop == ',' || stop == ';'
    ensures FindPairs(false, [stop] + s) == FindPairs(false, s)
  {
    hide FindPairs;
    assert ([stop] + s)[1..] == s;
    NoKeyAt([stop] + s);
    FindSkip(false, [stop] + s);
  }

  /** The fields of a row are its pairs, whichever separators, stops, spaces and cases are used. */
  lemma {:induction false} FieldsFound(fields: seq<Field>)
    requires FieldsOk(fields)
    ensures FindPairs(false, WriteAll(fields)) == PairsOf(fields)
  {
    hide FindPairs, Write, FieldOk;
    if fields == [] {
      NothingFound();
    } else {
      var f, rest := fields[0], fields[1..];
      var tail := if |fields| == 1 then "" else [f.stop] + WriteAll(rest);
      assert f.stop == ',' || f.stop == ';' by { StopOf(f); }
      FieldsFound(rest);
      FieldFound(f, tail);
      if |fields| > 1 { StopPassed(f.stop, WriteAll(rest)); }
      assert FindPairs(false, tail) == PairsOf(rest);
      assert PairsOf(fields) == [Pair(f.key, f.value)] + PairsOf(rest);
    }
  }

  lemma StopOf(f: Field)
    requires FieldOk(f)
    ensures (f.stop == ',' || f.stop == ';') && f.value != ""
  {
  }

  /** Without a colon and an equals sign there is no pair. */
  lemma {:induction false} NoPairs(inWord: bool, s: string)
    requires NoneOf(s, ':', '=')
    ensures FindPairs(inWord, s) == []
    decreases |s|
  {
    hide PairAt;
    if s != "" {
      NoPairAt(s);
      FindSkip(inWord, s);
      NoPairs(IsWord(s[0]), s[1..]);
    }
  }

  lemma NoPairAt(s: string)
    requires NoneOf(s, ':', '=')
    ensures PairAt(s).None?
  {
    hide KeyAt;
    match KeyAt(s) {
      case None =>
      case Some(key) =>
        var t := s[|KeyText(key)|..];
        var r := LStrip(t);
        if r != "" { assert r[0] == t[|t| - |r|]; }
    }
  }

  // ---------------------------------------------------------------- devices

  predicate LastAt(pairs: seq<Pair>, key: Key, i: int) {
    0 <= i < |pairs| && pairs[i].key == key && forall j :: i < j < |pairs| ==> pairs[j].key != key
  }

  predicate Lacks(pairs: seq<Pair>, key: Key) {
    forall i :: 0 <= i < |pairs| ==> pairs[i].key != key
  }

  /** The last pair of a key has this value. */
  ghost predicate Holds(pairs: seq<Pair>, key: Key, value: string) {
    exists i :: LastAt(pairs, key, i) && pairs[i].value == value
  }

  lemma {:induction false} GetMeans(pairs: seq<Pair>, key: Key)
    ensures match Get(pairs, key) case None => Lacks(pairs, key) case Some(v) => Holds(pairs, key, v)
  {
    if pairs != [] {
      var n := |pairs| - 1;
      if pairs[n].key == key {
        assert LastAt(pairs, key, n);
      } else {
        GetMeans(pairs[..n], key);
        if Get(pairs, key).Some? {
          var i :| LastAt(pairs[..n], key, i) && pairs[..n][i].value == Get(pairs, key).value;
          assert LastAt(pairs, key, i);
        }
      }
    }
  }

  lemma HeldIsVisible(fields: seq<Field>, key: Key, v: string)
    requires FieldsOk(fields) && Holds(PairsOf(fields), key, v)
    ensures v != ""
  {
    hide FieldOk, PairsOf;
    var i :| LastAt(PairsOf(fields), key, i) && PairsOf(fields)[i].value == v;
    StopOf(fields[i]);
  }

  ghost predicate BusIdIs(pairs: seq<Pair>, busId: string) {
    || Holds(pairs, BusId, busId)
    || (Lacks(pairs, BusId) && Holds(pairs, Bus_Id, busId))
    || (Lacks(pairs, BusId) && Lacks(pairs, Bus_Id) && Holds(pairs, Id, busId))
  }

  /** The device of a row of fields: its bus id is the last busid, else the last bus_id, else the last id,
      and its name the last devname, else the last name. */
  ghost predicate Describes(pairs: seq<Pair>, d: Device) {
    && BusIdIs(pairs, d.busId)
    && (match d.name
        case Some(name) => Holds(pairs, DevName, name) || (Lacks(pairs, DevName) && Holds(pairs, Name, name))
        case None => Lacks(pairs, DevName) && Lacks(pairs, Name))
    && NumberIs(pairs, Type, d.kind) && NumberIs(pairs, MaxPos, d.maxpos)
  }

  /** An integer is the last value of its key, as printed or as any text that is read like it. */
  ghost predicate NumberIs(pairs: seq<Pair>, key: Key, n: Option<int>) {
    (Lacks(pairs, key) && n.None?) || exists v :: Holds(pairs, key, v) && IntField(Some(v)) == Ok(n)
  }

  lemma NumberOf(pairs: seq<Pair>, key: Key, n: Option<int>)
    requires IntField(Get(pairs, key)) == Ok(n)
    ensures NumberIs(pairs, key, n)
  {
    hide IntField, Get, Lacks, Holds;
    GetMeans(pairs, key);
    NoField();
    if Get(pairs, key).Some? { assert Get(pairs, key) == Some(Get(pairs, key).value); }
  }

  lemma FieldsRead(fields: seq<Field>)
    requires FieldsOk(fields)
    requires exists f :: f in fields && f.key in {BusId, Bus_Id, Id}
    ensures match ParseRecord(WriteAll(fields))
      case Ok(devices) => |devices| == 1 && Describes(PairsOf(fields), devices[0])
      case Raised => RowRaises(WriteAll(fields))
  {
    hide FindPairs, FirmwareDevice, PairsDevice, FieldsOk, WriteAll, PairsOf, Get, Lacks, Holds, IntField, RowRaises, NumberIs;
    FieldsFound(fields);
    RecordRaisesIff(WriteAll(fields));
    var pairs := PairsOf(fields);
    GetAll(fields);
    var f :| f in fields && f.key in {BusId, Bus_Id, Id};
    NotLacking(fields, f);
    BusIdGot(pairs, f.key);
    PairsDeviceCases(pairs, BusIdOf(pairs).value);
    if ParseRecord(WriteAll(fields)).Ok? {
      var d := ParseRecord(WriteAll(fields)).value[0];
      assert GetIs(pairs, DevName) && GetIs(pairs, Name);
      NumberOf(pairs, Type, d.kind);
      NumberOf(pairs, MaxPos, d.maxpos);
    }
  }

  /** The bus id that `a or b or c` picks. */
  lemma BusIdGot(pairs: seq<Pair>, key: Key)
    requires (forall key :: GetIs(pairs, key)) && key in {BusId, Bus_Id, Id} && !Lacks(pairs, key)
    ensures Truthy(BusIdOf(pairs)) && BusIdIs(pairs, BusIdOf(pairs).value)
  {
    hide Get, Lacks, Holds;
    assert GetIs(pairs, BusId) && GetIs(pairs, Bus_Id) && GetIs(pairs, Id);
  }

  lemma NotLacking(fields: seq<Field>, f: Field)
    requires f in fields
    ensures !Lacks(PairsOf(fields), f.key)
  {
    var i :| 0 <= i < |fields| && fields[i] == f;
    assert PairsOf(fields)[i].key == f.key;
  }

  ghost predicate GetIs(pairs: seq<Pair>, key: Key) {
    match Get(pairs, key)
    case None => Lacks(pairs, key)
    case Some(v) => Holds(pairs, key, v) && v != "" && !Lacks(pairs, key)
  }

  lemma GetAll(fields: seq<Field>)
    requires FieldsOk(fields)
    ensures forall key :: GetIs(PairsOf(fields), key)
  {
    hide FieldsOk, PairsOf, Get;
    forall key ensures GetIs(PairsOf(fields), key) {
      GetMeans(PairsOf(fields), key);
      if Get(PairsOf(fields), key).Some? { HeldIsVisible(fields, key, Get(PairsOf(fields), key).value); }
    }
  }
}
