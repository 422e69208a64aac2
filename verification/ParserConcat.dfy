/** A text is parsed line by line, unless the end of a line waits for a value. */
module ParserConcat {
  import opened Common
  import opened Text
  import opened Parsers
  import opened ParserLines
  import opened ParserPairs
  import opened ParserRaises
  import opened ParserRecordEnds
  import opened ParserRows
  import opened ParserTables

  function ParseText(s: string): Result<seq<Device>> {
    ParseRecords(Records("", s))
  }

  // ---------------------------------------------------------------- texts

  lemma {:induction false} RecordsSplit(run: string, a: string, b: string)
    ensures Records(run, a + "\n" + b) == Records(run, a) + Records("", b)
    decreases |a|
  {
    var s := a + "\n" + b;
    if a == "" {
      assert s[1..] == b;
    } else {
      assert s[1..] == a[1..] + "\n" + b;
      RecordsSplit(if IsSeparator(a[0]) then "" else run + [a[0]], a[1..], b);
    }
  }

  lemma TextSplit(a: string, b: string)
    ensures ParseText(a + "\n" + b) == Both(ParseText(a), ParseText(b))
  {
    hide ParseRecords, Records, Both;
    RecordsSplit("", a, b);
    ParseRecordsConcat(Records("", a), Records("", b));
  }

  lemma NoRecords()
    ensures ParseText("") == Ok([])
  {
  }

  lemma OneRecord(r: string)
    requires r != ""
    ensures ParseRecords(Flush(r)) == ParseRecord(r)
  {
    hide ParseRecord;
    assert Flush(r)[1..] == [];
    BothOfNothing(ParseRecord(r));
  }

  lemma {:induction false} LeadingSpaceRun(c: char, run: string, s: string)
    requires IsSpace(c) && c != '\n'
    ensures ParseRecords(Records([c] + run, s)) == ParseRecords(Records(run, s))
    decreases |s|
  {
    hide ParseRecord, Both, ParseRecords;
    if s == "" || IsSeparator(s[0]) {
      var tail := if s == "" then [] else Records("", s[1..]);
      assert Records([c] + run, s) == Flush([c] + run) + tail && Records(run, s) == Flush(run) + tail;
      ParseRecordsConcat(Flush([c] + run), tail);
      ParseRecordsConcat(Flush(run), tail);
      OneRecord([c] + run);
      if run != "" {
        LeadingSpace(c, run);
        OneRecord(run);
      } else {
        assert [c] + run == [c];
        SpacesParse([c]);
        NoLines();
      }
    } else {
      assert [c] + run + [s[0]] == [c] + (run + [s[0]]);
      LeadingSpaceRun(c, run + [s[0]], s[1..]);
    }
  }

  lemma NoLines()
    ensures ParseRecords(Flush("")) == Ok([])
  {
  }

  lemma {:induction false} TextLStrip(s: string)
    ensures ParseText(LStrip(s)) == ParseText(s)
  {
    hide ParseRecords;
    if s != "" && IsSpace(s[0]) {
      TextLStrip(s[1..]);
      if s[0] == '\n' {
        assert Flush("") + Records("", s[1..]) == Records("", s[1..]);
      } else {
        assert "" + [s[0]] == [s[0]] + "";
        LeadingSpaceRun(s[0], "", s[1..]);
      }
    }
  }

  lemma TextOfSpaces(spaces: string)
    requires AllSpaces(spaces)
    ensures ParseText(spaces) == Ok([])
  {
    hide ParseText;
    LStripNothing(spaces);
    TextLStrip(spaces);
    NoRecords();
  }

  /** The record that is under way at the end of `run + s`, and those before it. */
  function LastRecord(run: string, s: string): string
    decreases |s|
  {
    if s == "" then run
    else if IsSeparator(s[0]) then LastRecord("", s[1..])
    else LastRecord(run + [s[0]], s[1..])
  }

  function Above(run: string, s: string): seq<string>
    decreases |s|
  {
    if s == "" then []
    else if IsSeparator(s[0]) then Flush(run) + Above("", s[1..])
    else Above(run + [s[0]], s[1..])
  }

  lemma {:induction false} RecordsEnd(run: string, s: string, spaces: string)
    requires Unseparated(spaces)
    ensures Records(run, s + spaces) == Above(run, s) + Flush(LastRecord(run, s) + spaces)
    decreases |s|
  {
    if s == "" {
      assert s + spaces == spaces && spaces + "" == spaces;
      RecordsOfRun(run, spaces, "");
    } else {
      assert (s + spaces)[1..] == s[1..] + spaces;
      RecordsEnd(if IsSeparator(s[0]) then "" else run + [s[0]], s[1..], spaces);
    }
  }

  lemma {:induction false} LastEnds(run: string, s: string)
    requires if s == "" then run == "" || Ends(run) else Ends(s)
    ensures var last := LastRecord(run, s);
      last == "" || (Ends(last) && (s != "" ==> last[|last| - 1] == s[|s| - 1]))
    decreases |s|
  {
    if s != "" {
      var next := if IsSeparator(s[0]) then "" else run + [s[0]];
      LastEnds(next, s[1..]);
    }
  }

  /** Spaces at the end of a text, on its last line, change the list iff the last record dangles and
      none before it raises. */
  lemma TrailingSpacesIff(s: string, spaces: string)
    requires AllSpaces(spaces) && Unseparated(spaces) && spaces != "" && (s == "" || Ends(s))
    ensures ParseText(s + spaces) == ParseText(s)
      <==> SomeRaises(Above("", s)) || !Dangles(LastRecord("", s))
  {
    hide ParseRecord, ParseRecords, Both, Records, Above, LastRecord, SomeRaises, Dangles, Ends, AllSpaces;
    RecordsEnd("", s, spaces);
    NoSeparators();
    RecordsEnd("", s, "");
    LastEnds("", s);
    var above, last := Above("", s), LastRecord("", s);
    assert s + "" == s && last + "" == last;
    ParseRecordsConcat(above, Flush(last + spaces));
    ParseRecordsConcat(above, Flush(last));
    RecordsRaiseIff(above);
    BothCancelsFirst(ParseRecords(above), ParseRecords(Flush(last + spaces)), ParseRecords(Flush(last)));
    OneRecord(last + spaces);
    if last == "" {
      assert last + spaces == spaces;
      SpacesParse(spaces);
      NoLines();
      NothingDangles();
    } else {
      OneRecord(last);
      RecordEndsIff(last, spaces);
    }
  }

  lemma NoSeparators()
    ensures Unseparated("")
  {
  }

  lemma NothingDangles()
    ensures !Dangles("")
  {
  }

  lemma BothCancelsFirst(x: Result<seq<Device>>, y: Result<seq<Device>>, z: Result<seq<Device>>)
    ensures Both(x, y) == Both(x, z) <==> x.Raised? || y == z
  {
    if x.Ok? && y.Ok? && z.Ok? && x.value + y.value == x.value + z.value {
      assert y.value == (x.value + y.value)[|x.value|..] == z.value;
    }
  }

  /** The first newline among the spaces, or their end. */
  function LineEnd(spaces: string): (n: nat)
    ensures n <= |spaces| && (n < |spaces| ==> spaces[n] == '\n')
    ensures forall i :: 0 <= i < n ==> spaces[i] != '\n'
  {
    if spaces == "" || spaces[0] == '\n' then 0 else 1 + LineEnd(spaces[1..])
  }

  /** Of the spaces at the end of a text only those on its last line can matter. */
  lemma LinesBelow(s: string, spaces: string)
    requires AllSpaces(spaces)
    ensures var here := spaces[..LineEnd(spaces)];
      ParseText(s + spaces) == ParseText(s + here) && AllSpaces(here) && Unseparated(here)
  {
    hide ParseRecords, Records, Both;
    var n := LineEnd(spaces);
    var here := spaces[..n];
    if n < |spaces| {
      var below := spaces[n + 1..];
      assert s + spaces == (s + here) + "\n" + below;
      TextSplit(s + here, below);
      TextOfSpaces(below);
      BothOfNothing(ParseText(s + here));
    } else {
      assert here == spaces;
    }
  }

  // ---------------------------------------------------------------- the law

  /** What `_plain` leaves of a text whose trailing spaces are dropped. */
  function Trunk(a: string): string {
    Collapse(false, RStrip(a))
  }

  /** A space follows the last visible character on its line. */
  predicate SpaceBehind(a: string) {
    |RStrip(a)| < |a| && a[|RStrip(a)|] != '\n'
  }

  /** The text ends in a key whose value is still to come, a space stands behind it, and an empty
      value would overwrite something of that record. */
  ghost predicate LooseEnd(a: string) {
    SpaceBehind(a) && Dangles(LastRecord("", Trunk(a)))
  }

  /** A record before the last one raises. */
  ghost predicate RaisesAbove(a: string) {
    SomeRaises(Above("", Trunk(a)))
  }

  lemma {:induction false} CollapseSpaces(afterBlank: bool, spaces: string)
    requires AllSpaces(spaces)
    ensures var c := Collapse(afterBlank, spaces);
      AllSpaces(c) && (spaces == "" || spaces[0] == '\n' ==> c == "" || c[0] == '\n')
    ensures var c := Collapse(afterBlank, spaces);
      spaces != "" && spaces[0] != '\n' && !afterBlank ==> c != "" && c[0] != '\n'
    decreases |spaces|
  {
    if spaces != "" {
      assert IsSpace(spaces[0]);
      assert forall i :: 0 <= i < |spaces| - 1 ==> spaces[1..][i] == spaces[i + 1];
      CollapseSpaces(IsBlank(spaces[0]), spaces[1..]);
    }
  }

  lemma {:induction false} CollapseEnds(afterBlank: bool, q: string)
    requires Ends(q)
    ensures var c := Collapse(afterBlank, q); Ends(c) && c[|c| - 1] == q[|q| - 1]
    decreases |q|
  {
    if |q| > 1 {
      CollapseEnds(IsBlank(q[0]), q[1..]);
    } else {
      assert q[1..] == "";
    }
  }

  /** `_plain` amounts to collapsing what is left when trailing spaces are dropped. */
  lemma ParseIsTrimmed(a: string)
    ensures Parse(a) == ParseText(Collapse(false, RStrip(a)))
  {
    hide ParseRecords, Records, Collapse, RStrip, LStrip;
    var v := RStrip(a);
    var w := a[|v|..];
    assert a == v + w && AllSpaces(w);
    CollapseConcat(false, v, w);
    var cv, cw := Collapse(false, v), Collapse(EndsBlank(false, v), w);
    CollapseSpaces(EndsBlank(false, v), w);
    CollapsedNothing();
    if v == "" {
      assert cv + cw == cw;
      LStripNothing(cw);
      RStripNothing();
    } else {
      CollapseEnds(false, v);
      LStripEnds(cv, cw);
      RStripSpaces(LStrip(cv), cw);
      LStripEnds(cv, "");
      RStripEnds(LStrip(cv));
      TextLStrip(cv);
    }
  }

  lemma CollapsedNothing()
    ensures Collapse(false, "") == ""
  {
  }

  lemma RStripEnds(q: string)
    requires Ends(q)
    ensures RStrip(q) == q
  {
  }

  lemma {:induction false} EndsVisible(afterBlank: bool, q: string)
    requires Ends(q)
    ensures !EndsBlank(afterBlank, q)
  {
  }

  /** Keeping the trailing spaces of a text makes a difference iff it has a loose end and does not
      raise before it. */
  lemma KeptSpacesIff(a: string)
    ensures ParseText(Collapse(false, a)) == Parse(a) <==> RaisesAbove(a) || !LooseEnd(a)
  {
    hide ParseRecords, Records, Collapse, RStrip, ParseText, Parse, SomeRaises, Dangles, LastRecord, Above;
    ParseIsTrimmed(a);
    var v := RStrip(a);
    var w := a[|v|..];
    assert a == v + w && AllSpaces(w);
    CollapseConcat(false, v, w);
    CollapsedNothing();
    var cv, cw := Collapse(false, v), Collapse(EndsBlank(false, v), w);
    CollapseSpaces(EndsBlank(false, v), w);
    assert w != "" ==> w[0] == a[|v|];
    LinesBelow(cv, cw);
    var here := cw[..LineEnd(cw)];
    if v == "" {
      NoOpenEnd();
      assert cv + here == here;
      TextOfSpaces(here);
      NoRecords();
    } else {
      EndsVisible(false, v);
      CollapseEnds(false, v);
      if here == "" { assert cv + here == cv; } else { TrailingSpacesIff(cv, here); }
    }
  }

  lemma NoOpenEnd()
    ensures !Dangles(LastRecord("", ""))
  {
    NothingDangles();
  }

  /** What a visible text adds below another one; the upper one keeps its trailing spaces. */
  lemma VisibleBelow(a: string, b: string)
    requires !AllSpaces(b)
    ensures Parse(a + "\n" + b) == Both(ParseText(Collapse(false, a)), Parse(b))
  {
    hide ParseRecords, Records, Collapse, RStrip, ParseText, Parse, Both;
    ParseIsTrimmed(a + "\n" + b);
    ParseIsTrimmed(b);
    assert RStrip(b) != "";
    RStripAppend(a + "\n", b);
    var v := RStrip(b);
    CollapseConcat(false, a + "\n", v);
    CollapseConcat(false, a, "\n");
    CollapsedNewline(EndsBlank(false, a));
    TextSplit(Collapse(false, a), Collapse(false, v));
  }

  lemma NothingBelow(a: string, b: string)
    requires AllSpaces(b)
    ensures Parse(a + "\n" + b) == Parse(a) && Parse(b) == Ok([])
  {
    hide ParseRecords, Records, Collapse, RStrip, ParseText, Parse;
    ParseIsTrimmed(a + "\n" + b);
    ParseIsTrimmed(a);
    ParseIsTrimmed(b);
    CollapsedNothing();
    NoRecords();
    assert a + "\n" + b == a + ("\n" + b) && AllSpaces("\n" + b) && "" + b == b;
    RStripSpaces(a, "\n" + b);
    RStripSpaces("", b);
    RStripNothing();
  }

  lemma BothCancels(x: Result<seq<Device>>, y: Result<seq<Device>>, z: Result<seq<Device>>)
    ensures Both(x, z) == Both(y, z) <==> z.Raised? || x == y
  {
    if x.Ok? && y.Ok? && z.Ok? && x.value + z.value == y.value + z.value {
      assert |x.value| == |y.value|;
      assert x.value == (x.value + z.value)[..|x.value|] == y.value;
    }
  }

  /** Exactly when two texts, one below the other, are parsed separately: the lower one is blank or
      raises anyway, or the upper one raises before its end or has no loose end. */
  lemma LinesParseSeparatelyIff(a: string, b: string)
    ensures Parse(a + "\n" + b) == Both(Parse(a), Parse(b))
      <==> AllSpaces(b) || Raises(b) || RaisesAbove(a) || !LooseEnd(a)
  {
    hide Parse, ParseText, Collapse, Both, LooseEnd, RaisesAbove, Raises;
    ParseRaisesIff(b);
    if AllSpaces(b) {
      NothingBelow(a, b);
      BothOfNothing(Parse(a));
    } else {
      VisibleBelow(a, b);
      BothCancels(ParseText(Collapse(false, a)), Parse(a), Parse(b));
      KeptSpacesIff(a);
    }
  }

  lemma LooseEndIsVisible(a: string)
    requires LooseEnd(a)
    ensures var r := RStrip(a); SpaceBehind(a) && r != "" && (r[|r| - 1] == ':' || r[|r| - 1] == '=')
  {
    hide RStrip, LastRecord, Collapse, Dangles, SpaceBehind;
    var r := RStrip(a);
    DanglesOpen(LastRecord("", Trunk(a)));
    CollapsedNothing();
    NoOpenEnd();
    if r != "" {
      CollapseEnds(false, r);
      LastEnds("", Trunk(a));
    }
  }

  /** In particular they are, unless the last visible character of the upper one is a colon or an
      equals sign with a space behind it. */
  lemma LinesParseSeparately(a: string, b: string)
    requires var r := RStrip(a); SpaceBehind(a) && r != "" ==> r[|r| - 1] != ':' && r[|r| - 1] != '='
    ensures Parse(a + "\n" + b) == Both(Parse(a), Parse(b))
  {
    hide Parse, Both, RStrip, LooseEnd, SpaceBehind;
    LinesParseSeparatelyIff(a, b);
    assert !LooseEnd(a) by {
      if LooseEnd(a) { LooseEndIsVisible(a); }
    }
  }

  lemma CollapsedNewline(afterBlank: bool)
    ensures Collapse(afterBlank, "\n") == "\n"
  {
    assert "\n"[1..] == "";
  }

  // ---------------------------------------------------------------- the loose end

  lemma LooseValue()
    ensures ValueAt("= ") == Some(Match("", "")) && ValueAt("=").None?
  {
    hide Strip, Body;
    assert "= "[1..] == " " && "="[1..] == "" && " "[1..] == "";
    BodyOfSpaces(" ");
    BodyOfSpaces("");
    SpaceStrips();
  }

  lemma SpaceStrips()
    ensures Strip(" ") == ""
  {
    hide LStrip, RStrip;
    LStripNothing(" ");
    RStripNothing();
  }

  lemma LoosePairs()
    ensures FindPairs(false, "id=5,name= ") == [Pair(Id, "5"), Pair(Name, "")]
    ensures FindPairs(false, "id=5,name=") == [Pair(Id, "5")]
  {
    hide FindPairs, KeyAt, ValueAt, ValueOk;
    assert ValueOk("5") by { FiveIsOk(); }
    assert "id=5,name= " == KeyText(Id) + "=" + "5" + ",name= ";
    assert "id=5,name=" == KeyText(Id) + "=" + "5" + ",name=";
    PairRead(Id, "5", ",name= ");
    PairRead(Id, "5", ",name=");
    assert ",name= " == "," + "name= " && ",name=" == "," + "name=";
    StopSkipped("name= ");
    StopSkipped("name=");
    assert "name= " == KeyText(Name) + "=" + " " && "name=" == KeyText(Name) + "=" + "";
    KeyRead(Name, " ");
    KeyRead(Name, "");
    assert "name= "[4..] == "= " && "name="[4..] == "=";
    LooseValue();
    FindMatch("name= ", Match("", ""));
    FindSkip(false, "name=");
    assert "name="[1..] == "ame" + "=" && "="[1..] == "";
    WordSkipped("ame", "=");
    FindSkip(true, "=");
    NothingFound();
  }

  lemma FiveIsOk()
    ensures ValueOk("5")
  {
  }

  lemma LooseRecords()
    ensures ParseRecord("id=5,name=") == Ok([Device("5", None, None, None)])
    ensures ParseRecord("id=5,name= ") == Ok([Device("5", None, Some(""), None)])
  {
    hide FindPairs, FirmwareDevice;
    LoosePairs();
    assert [Pair(Id, "5"), Pair(Name, "")][..1] == [Pair(Id, "5")] && [Pair(Id, "5")][..0] == [];
  }

  lemma OneLine(s: string)
    requires s != "" && Unseparated(s)
    ensures ParseText(s) == ParseRecord(s)
  {
    hide ParseRecord;
    assert s + "" == s && "" + s == s;
    RecordsOfRun("", s, "");
    OneRecord(s);
  }

  lemma LooseTrim()
    ensures RStrip("id=5,name= ") == "id=5,name="
  {
    hide RStrip;
    assert "id=5,name= " == "id=5,name=" + " ";
    RStripSpaces("id=5,name=", " ");
    RStripEnds("id=5,name=");
  }

  lemma LooseCollapse()
    ensures Collapse(false, "id=5,name= ") == "id=5,name= " && Collapse(false, "id=5,name=") == "id=5,name="
    ensures Unseparated("id=5,name= ") && Unseparated("id=5,name=")
  {
    hide Collapse;
    CollapseTidy(false, "id=5,name= ");
    CollapseTidy(false, "id=5,name=");
  }

  lemma LooseTexts()
    ensures ParseText(Collapse(false, "id=5,name= ")) == Ok([Device("5", None, Some(""), None)])
    ensures Parse("id=5,name= ") == Ok([Device("5", None, None, None)])
  {
    hide ParseRecord, Records, Collapse, Parse, ParseText, RStrip, Unseparated;
    LooseRecords();
    LooseTrim();
    LooseCollapse();
    ParseIsTrimmed("id=5,name= ");
    OneLine("id=5,name= ");
    OneLine("id=5,name=");
  }

  lemma SixIsParsed()
    ensures Parse("busid=6") == Ok([Device("6", None, None, None)])
  {
    hide Parse, PrintPairs, PairsOk;
    var d := Device("6", None, None, None);
    SixIsPrinted();
    PairsTableRoundTrip([d], '\n');
    assert Join(PrintAllPairs([d]), '\n') == "busid=6";
  }

  lemma SixIsPrinted()
    ensures PrintPairs(Device("6", None, None, None)) == "busid=6" && PairsOk(Device("6", None, None, None))
  {
  }

  /** A loose end does interact with what follows: a name left open by "name= " is empty when
      another row follows, and absent when none does. */
  lemma LooseEndsInteract()
    ensures var a, b := "id=5,name= ", "busid=6";
      LooseEnd(a) && Parse(a + "\n" + b) != Both(Parse(a), Parse(b))
  {
    hide Collapse, Parse, ParseText, LooseEnd;
    LooseTexts();
    SixIsParsed();
    assert !IsSpace("busid=6"[0]);
    VisibleBelow("id=5,name= ", "busid=6");
    var with_, without := Device("5", None, Some(""), None), Device("5", None, None, None);
    var six := Device("6", None, None, None);
    assert ([with_] + [six])[0] == with_ && ([without] + [six])[0] == without;
    LinesParseSeparatelyIff("id=5,name= ", "busid=6");
  }
}
