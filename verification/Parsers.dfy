/** `parse_devices` of parsers.py on ASCII text without tags and entities. */
module Parsers {
  import opened Common
  import opened Text

  datatype Device = Device(busId: string, kind: Option<int>, name: Option<string>, maxpos: Option<int>)

  // ---------------------------------------------------------------- key/value pairs

  datatype Key = BusId | Bus_Id | Id | Type | DevName | Name | MaxPos

  datatype Pair = Pair(key: Key, value: string)

  function KeyText(key: Key): string {
    match key
    case BusId => "busid"
    case Bus_Id => "bus_id"
    case Id => "id"
    case Type => "type"
    case DevName => "devname"
    case Name => "name"
    case MaxPos => "maxpos"
  }

  /** The alternation of keys; no key starts another, so its order does not matter. */
  function KeyAt(s: string): (key: Option<Key>)
    ensures key.Some? ==> Begins(s, KeyText(key.value)) && 2 <= |KeyText(key.value)| <= |s|
  {
    if Begins(s, "busid") then Some(BusId)
    else if Begins(s, "bus_id") then Some(Bus_Id)
    else if Begins(s, "id") then Some(Id)
    else if Begins(s, "type") then Some(Type)
    else if Begins(s, "devname") then Some(DevName)
    else if Begins(s, "name") then Some(Name)
    else if Begins(s, "maxpos") then Some(MaxPos)
    else None
  }

  predicate IsStop(c: char) {
    c == ',' || c == ';'
  }

  /** `[^,;]*` */
  function Body(s: string): (body: string)
    ensures |body| <= |s| && body == s[..|body|]
    ensures forall i :: 0 <= i < |body| ==> !IsStop(body[i])
    ensures |body| < |s| ==> IsStop(s[|body|])
  {
    if s == "" || IsStop(s[0]) then "" else [s[0]] + Body(s[1..])
  }

  datatype Match = Match(value: string, rest: string)

  /** `\s*[:=]\s*([^,;]+)` and the strip of the group.  The value is what stands between the
      separator and the next stop; when only spaces stand there, backtracking leaves one of them
      to the group, and nothing of it to the value. */
  function ValueAt(s: string): (m: Option<Match>)
    ensures m.Some? ==> |m.value.rest| < |s| && |m.value.value| < |s|
    ensures m.Some? ==> m.value.rest == "" || IsStop(m.value.rest[0])
  {
    var r := LStrip(s);
    if r == "" || (r[0] != ':' && r[0] != '=') then None
    else
      var body := Body(r[1..]);
      if body == "" then None else Some(Match(Strip(body), r[1..][|body|..]))
  }

  /** The pair pattern at the start of `s`. */
  function PairAt(s: string): (m: Option<Match>)
    ensures m.Some? ==> |m.value.rest| + 2 < |s| && |m.value.value| + 2 < |s|
    ensures m.Some? ==> m.value.rest == "" || IsStop(m.value.rest[0])
  {
    match KeyAt(s)
    case None => None
    case Some(key) => ValueAt(s[|KeyText(key)|..])
  }

  /** `re.findall` of the pair pattern; `inWord` says whether a word character stands before `s`. */
  function FindPairs(inWord: bool, s: string): seq<Pair>
    decreases |s|
  {
    if s == "" then []
    else
      match if inWord then None else PairAt(s)
      case Some(m) => [Pair(KeyAt(s).value, m.value)] + FindPairs(false, m.rest)
      case None => FindPairs(IsWord(s[0]), s[1..])
  }

  lemma FindMatch(s: string, m: Match)
    requires s != "" && PairAt(s) == Some(m)
    ensures FindPairs(false, s) == [Pair(KeyAt(s).value, m.value)] + FindPairs(false, m.rest)
  {
    hide PairAt, KeyAt;
  }

  lemma FindSkip(inWord: bool, s: string)
    requires s != "" && (inWord || PairAt(s).None?)
    ensures FindPairs(inWord, s) == FindPairs(IsWord(s[0]), s[1..])
  {
    hide PairAt, KeyAt;
  }

  lemma NotBegins(s: string, literal: string, i: nat)
    requires i < |literal|
    ensures i >= |s| || Lower(s[i]) != literal[i] ==> !Begins(s, literal)
  {
  }

  predicate LowerCase(literal: string) {
    forall i :: 0 <= i < |literal| ==> Lower(literal[i]) == literal[i]
  }

  lemma BeginsAsWritten(literal: string, rest: string)
    requires LowerCase(literal)
    ensures Begins(literal + rest, literal)
  {
    assert forall i :: 0 <= i < |literal| ==> (literal + rest)[i] == literal[i];
  }

  /** No key starts with a character that starts none. */
  lemma NoKeyAt(s: string)
    requires s != "" && Lower(s[0]) !in "bitdnm"
    ensures KeyAt(s).None? && PairAt(s).None?
  {
    hide Begins;
    NotBegins(s, "busid", 0);
    NotBegins(s, "bus_id", 0);
    NotBegins(s, "id", 0);
    NotBegins(s, "type", 0);
    NotBegins(s, "devname", 0);
    NotBegins(s, "name", 0);
    NotBegins(s, "maxpos", 0);
  }

  /** The dictionary of the pairs: the last one of a key counts. */
  function Get(pairs: seq<Pair>, key: Key): Option<string> {
    if pairs == [] then None
    else if pairs[|pairs| - 1].key == key then Some(pairs[|pairs| - 1].value)
    else Get(pairs[..|pairs| - 1], key)
  }

  /** Python's `a or b`. */
  function Or(a: Option<string>, b: Option<string>): Option<string> {
    if a.Some? && a.value != "" then a else b
  }

  function BusIdOf(pairs: seq<Pair>): Option<string> {
    Or(Get(pairs, BusId), Or(Get(pairs, Bus_Id), Get(pairs, Id)))
  }

  predicate Truthy(o: Option<string>) {
    o.Some? && o.value != ""
  }

  // ---------------------------------------------------------------- integers

  function DigitValue(c: char): nat
    requires IsDigit(c)
  {
    c as int - '0' as int
  }

  predicate AllDigits(s: string) {
    forall i :: 0 <= i < |s| ==> IsDigit(s[i])
  }

  function Decimal(s: string): nat
    requires AllDigits(s)
  {
    if s == "" then 0 else 10 * Decimal(s[..|s| - 1]) + DigitValue(s[|s| - 1])
  }

  /** `lstrip("-")` */
  function Undash(s: string): (r: string)
    ensures |r| <= |s| && r == s[|s| - |r|..]
    ensures forall i :: 0 <= i < |s| - |r| ==> s[i] == '-'
    ensures r != "" ==> r[0] != '-'
  {
    if s != "" && s[0] == '-' then Undash(s[1..]) else s
  }

  /** The most digits Python's `int` converts. */
  const MAX_INT_DIGITS := 4300

  /** A value that passes the digit test is handed to `int`, which takes one sign and a limited
      number of digits. */
  function IntField(field: Option<string>): Result<Option<int>> {
    if !Truthy(field) then Ok(None)
    else
      var v := Strip(field.value);
      var digits := Undash(v);
      if digits == "" || !AllDigits(digits) then Ok(None)
      else if |digits| > MAX_INT_DIGITS then Raised
      else if |v| == |digits| then Ok(Some(Decimal(digits) as int))
      else if |v| == |digits| + 1 then Ok(Some(-(Decimal(digits) as int)))
      else Raised
  }

  function PairsDevice(pairs: seq<Pair>, busId: string): Result<Device> {
    match (IntField(Get(pairs, Type)), IntField(Get(pairs, MaxPos)))
    case (Ok(kind), Ok(maxpos)) => Ok(Device(busId, kind, Or(Get(pairs, DevName), Get(pairs, Name)), maxpos))
    case _ => Raised
  }

  // ---------------------------------------------------------------- firmware rows

  datatype Label = Label(kind: int, rest: string)

  /** `\s+`: the rest behind at least one space. */
  function Gap(s: string): (r: Option<string>)
    ensures r.Some? ==> |r.value| < |s|
  {
    var v := LStrip(s);
    if |v| == |s| then None else Some(v)
  }

  /** `\s+second\b` */
  function SecondWord(s: string, second: string): Option<string> {
    match Gap(s)
    case None => None
    case Some(v) => if Begins(v, second) && Boundary(v[|second|..]) then Some(v[|second|..]) else None
  }

  /** A two-word label: `first\s+second\b`. */
  function TwoWords(s: string, first: string, second: string): Option<string> {
    if Begins(s, first) then SecondWord(s[|first|..], second) else None
  }

  function OneWord(s: string, word: string): Option<string> {
    if Begins(s, word) && Boundary(s[|word|..]) then Some(s[|word|..]) else None
  }

  /** The alternation of labels in the order in which it is tried. */
  function LabelAt(s: string): Option<Label> {
    if TwoWords(s, "coverpct", "u").Some? then Some(Label(19, TwoWords(s, "coverpct", "u").value))
    else if TwoWords(s, "cover", "u").Some? then Some(Label(18, TwoWords(s, "cover", "u").value))
    else if TwoWords(s, "alarm", "board").Some? then Some(Label(14, TwoWords(s, "alarm", "board").value))
    else if OneWord(s, "coverpct").Some? then Some(Label(9, OneWord(s, "coverpct").value))
    else if OneWord(s, "switch").Some? then Some(Label(1, OneWord(s, "switch").value))
    else if OneWord(s, "dimmer").Some? then Some(Label(3, OneWord(s, "dimmer").value))
    else if OneWord(s, "cover").Some? then Some(Label(8, OneWord(s, "cover").value))
    else if OneWord(s, "generic").Some? then Some(Label(11, OneWord(s, "generic").value))
    else None
  }

  function HexValue(c: char): nat
    requires IsHex(c)
  {
    if IsDigit(c) then c as int - '0' as int
    else if 'a' <= c then c as int - 'a' as int + 10
    else c as int - 'A' as int + 10
  }

  predicate HexAt(s: string, n: nat) {
    n <= |s| && forall i :: 0 <= i < n ==> IsHex(s[i])
  }

  /** `\s+[0-9A-Fa-f]{n}` */
  function GapHex(s: string, n: nat): Option<string> {
    match Gap(s)
    case Some(v) => if HexAt(v, n) then Some(v[n..]) else None
    case None => None
  }

  datatype Calibration = Calibration(maxpos: nat, rest: string)

  /** The calibration block at the start of a name, which ends there or goes on behind a space. */
  function CalibrationAt(s: string): Option<Calibration> {
    if !HexAt(s, 4) then None
    else match GapHex(s[4..], 4)
      case None => None
      case Some(a) => match GapHex(a, 2)
        case None => None
        case Some(b) => match GapHex(b, 4)
          case None => None
          case Some(c) => match GapHex(c, 2)
            case None => None
            case Some(d) =>
              if d != "" && Gap(d).None? then None
              else Some(Calibration(((HexValue(s[0]) * 16 + HexValue(s[1])) * 16 + HexValue(s[2])) * 16 + HexValue(s[3]),
                                    if d == "" then "" else Gap(d).value))
  }

  /** `x or None` */
  function NonEmpty(s: string): Option<string> {
    if s == "" then None else Some(s)
  }

  predicate IsPercent(kind: int) {
    kind == 9 || kind == 19
  }

  function RowDevice(busId: string, row: Label): Device {
    var name := Strip(row.rest);
    var calibration := if IsPercent(row.kind) then CalibrationAt(name) else None;
    match calibration
    case Some(c) => Device(busId, Some(row.kind), NonEmpty(Strip(c.rest)), Some(c.maxpos))
    case None => Device(busId, Some(row.kind), NonEmpty(name), None)
  }

  function FirmwareDevice(record: string): Option<Device> {
    var s := LStrip(record);
    if !HexAt(s, 2) then None
    else match LabelAt(LStrip(s[2..]))
      case None => None
      case Some(row) => Some(RowDevice(UpperAll(s[..2]), row))
  }

  // ---------------------------------------------------------------- records and texts

  /** What one record adds to the list; `Ok([])` when it is ignored. */
  function ParseRecord(record: string): Result<seq<Device>> {
    var pairs := FindPairs(false, record);
    if Truthy(BusIdOf(pairs)) then
      match PairsDevice(pairs, BusIdOf(pairs).value)
      case Ok(d) => Ok([d])
      case Raised => Raised
    else
      match FirmwareDevice(record)
      case Some(d) => Ok([d])
      case None => Ok([])
  }

  /** One list after the other; an exception in either ends everything. */
  function Both(a: Result<seq<Device>>, b: Result<seq<Device>>): Result<seq<Device>> {
    if a.Ok? && b.Ok? then Ok(a.value + b.value) else Raised
  }

  function ParseRecords(records: seq<string>): Result<seq<Device>> {
    if records == [] then Ok([]) else Both(ParseRecord(records[0]), ParseRecords(records[1..]))
  }

  /** Newlines and bars separate records; `_plain` has made spaces of carriage returns. */
  predicate IsSeparator(c: char) {
    c == '\n' || c == '|'
  }

  function Flush(run: string): seq<string> {
    if run == "" then [] else [run]
  }

  /** The non-empty records of `run + s`; the split also yields empty ones, which are ignored. */
  function Records(run: string, s: string): seq<string>
    decreases |s|
  {
    if s == "" then Flush(run)
    else if IsSeparator(s[0]) then Flush(run) + Records("", s[1..])
    else Records(run + [s[0]], s[1..])
  }

  /** `[ \t\r\f\v]` */
  predicate IsBlank(c: char) {
    c == ' ' || c == '\t' || c == '\r' || c == '\U{0C}' || c == '\U{0B}'
  }

  /** Every run of blanks becomes one space. */
  function Collapse(afterBlank: bool, s: string): string
    decreases |s|
  {
    if s == "" then ""
    else if IsBlank(s[0]) then (if afterBlank then "" else " ") + Collapse(true, s[1..])
    else [s[0]] + Collapse(false, s[1..])
  }

  /** Without tags and entities this is all `_plain` does. */
  function Plain(body: string): string {
    Strip(Collapse(false, body))
  }

  function Parse(body: string): Result<seq<Device>> {
    ParseRecords(Records("", Plain(body)))
  }

  lemma BothAssociative(a: Result<seq<Device>>, b: Result<seq<Device>>, c: Result<seq<Device>>)
    ensures Both(Both(a, b), c) == Both(a, Both(b, c))
  {
    if a.Ok? && b.Ok? && c.Ok? {
      assert a.value + b.value + c.value == a.value + (b.value + c.value);
    }
  }

  lemma BothOfNothing(a: Result<seq<Device>>)
    ensures Both(Ok([]), a) == a && Both(a, Ok([])) == a
  {
    if a.Ok? { assert [] + a.value == a.value && a.value + [] == a.value; }
  }

  lemma {:induction false} ParseRecordsConcat(a: seq<string>, b: seq<string>)
    ensures ParseRecords(a + b) == Both(ParseRecords(a), ParseRecords(b))
  {
    hide ParseRecord, Both;
    if a == [] {
      assert a + b == b;
      BothOfNothing(ParseRecords(b));
    } else {
      assert (a + b)[1..] == a[1..] + b;
      ParseRecordsConcat(a[1..], b);
      BothAssociative(ParseRecord(a[0]), ParseRecords(a[1..]), ParseRecords(b));
    }
  }

  /** The records that are not blank and yet yield nothing; only their number is logged. */
  function Ignored(records: seq<string>): nat {
    if records == [] then 0
    else
      var last := records[|records| - 1];
      Ignored(records[..|records| - 1]) + if ParseRecord(last) == Ok([]) && Strip(last) != "" then 1 else 0
  }

  lemma ParseRecordsNext(records: seq<string>, i: nat)
    requires i < |records|
    ensures ParseRecords(records[..i + 1]) == Both(ParseRecords(records[..i]), ParseRecord(records[i]))
  {
    hide ParseRecord, Both;
    assert records[..i + 1] == records[..i] + [records[i]];
    ParseRecordsConcat(records[..i], [records[i]]);
    assert [records[i]][1..] == [];
    BothOfNothing(ParseRecord(records[i]));
  }

  lemma RaisedStays(records: seq<string>, n: nat)
    requires n <= |records| && ParseRecords(records[..n]).Raised?
    ensures ParseRecords(records).Raised?
  {
    hide ParseRecords;
    assert records == records[..n] + records[n..];
    ParseRecordsConcat(records[..n], records[n..]);
  }

  lemma IgnoredNext(records: seq<string>, i: nat)
    requires i < |records|
    ensures Ignored(records[..i + 1]) ==
      Ignored(records[..i]) + if ParseRecord(records[i]) == Ok([]) && Strip(records[i]) != "" then 1 else 0
  {
    hide ParseRecord, Strip;
    assert records[..i + 1][..i] == records[..i];
  }

  /** The loop of `parse_devices`. */
  method ParseDevices(body: string) returns (devices: seq<Device>, ignored: nat, raised: bool)
    ensures Parse(body) == if raised then Raised else Ok(devices)
    ensures !raised ==> ignored == Ignored(Records("", Plain(body)))
  {
    hide ParseRecord, Records, Plain;
    var records := Records("", Plain(body));
    devices, ignored, raised := [], 0, false;
    for i := 0 to |records|
      invariant ParseRecords(records[..i]) == Ok(devices) && ignored == Ignored(records[..i])
    {
      ParseRecordsNext(records, i);
      IgnoredNext(records, i);
      match ParseRecord(records[i]) {
        case Raised =>
          RaisedStays(records, i + 1);
          return devices, ignored, true;
        case Ok(found) =>
          devices := devices + found;
          if found == [] && Strip(records[i]) != "" { ignored := ignored + 1; }
      }
    }
    assert records[..|records|] == records;
  }
}
