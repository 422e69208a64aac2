/** From texts to records: what `_plain` and the split make of lines joined by separators. */
module ParserLines {
  import opened Common
  import opened Text
  import opened Parsers

  predicate Unseparated(s: string) {
    forall i :: 0 <= i < |s| ==> s[i] != '\n' && s[i] != '|'
  }

  predicate EndsBlank(afterBlank: bool, s: string) {
    if s == "" then afterBlank else IsBlank(s[|s| - 1])
  }

  /** What the first character of a text becomes. */
  function Blanked(afterBlank: bool, c: char): string {
    if !IsBlank(c) then [c] else if afterBlank then "" else " "
  }

  lemma CollapseFirst(afterBlank: bool, s: string)
    requires s != ""
    ensures Collapse(afterBlank, s) == Blanked(afterBlank, s[0]) + Collapse(IsBlank(s[0]), s[1..])
  {
    hide IsBlank;
  }

  lemma EndsBlankTail(afterBlank: bool, s: string)
    requires s != ""
    ensures EndsBlank(afterBlank, s) == EndsBlank(IsBlank(s[0]), s[1..])
  {
    hide IsBlank;
  }

  lemma {:induction false} CollapseConcat(afterBlank: bool, a: string, b: string)
    ensures Collapse(afterBlank, a + b) == Collapse(afterBlank, a) + Collapse(EndsBlank(afterBlank, a), b)
    decreases |a|
  {
    if a == "" {
      assert a + b == b;
      CollapseNothing(afterBlank);
    } else {
      hide Collapse, IsBlank, EndsBlank, Blanked;
      assert (a + b)[1..] == a[1..] + b && (a + b)[0] == a[0];
      CollapseConcat(IsBlank(a[0]), a[1..], b);
      CollapseFirst(afterBlank, a + b);
      CollapseFirst(afterBlank, a);
      EndsBlankTail(afterBlank, a);
      Regroup(Blanked(afterBlank, a[0]), Collapse(IsBlank(a[0]), a[1..]), Collapse(EndsBlank(afterBlank, a), b));
    }
  }

  lemma CollapseNothing(afterBlank: bool)
    ensures Collapse(afterBlank, "") == ""
  {
  }

  /** No blank but single spaces. */
  predicate Tidy(s: string) {
    forall i :: 0 <= i < |s| && IsBlank(s[i]) ==> s[i] == ' ' && (i > 0 ==> !IsBlank(s[i - 1]))
  }

  lemma TidyTail(s: string)
    requires Tidy(s) && s != ""
    ensures Tidy(s[1..])
    ensures IsBlank(s[0]) ==> s[0] == ' ' && (s[1..] != "" ==> !IsBlank(s[1..][0]))
  {
    assert forall i :: 0 <= i < |s| - 1 ==> s[1..][i] == s[i + 1];
  }

  lemma {:induction false} CollapseTidy(afterBlank: bool, s: string)
    requires Tidy(s) && (afterBlank && s != "" ==> !IsBlank(s[0]))
    ensures Collapse(afterBlank, s) == s
    decreases |s|
  {
    hide Tidy;
    if s != "" {
      TidyTail(s);
      CollapseTidy(IsBlank(s[0]), s[1..]);
    }
  }

  lemma {:induction false} RecordsOfRun(run: string, part: string, tail: string)
    requires Unseparated(part)
    ensures Records(run, part + tail) == Records(run + part, tail)
    decreases |part|
  {
    if part == "" {
      assert part + tail == tail && run + part == run;
    } else {
      assert (part + tail)[1..] == part[1..] + tail;
      assert forall i :: 0 <= i < |part| - 1 ==> part[1..][i] == part[i + 1];
      RecordsOfRun(run + [part[0]], part[1..], tail);
      assert run + [part[0]] + part[1..] == run + part;
    }
  }

  function Join(lines: seq<string>, separator: char): string {
    if lines == [] then ""
    else if |lines| == 1 then lines[0]
    else lines[0] + [separator] + Join(lines[1..], separator)
  }

  function CollapseAll(lines: seq<string>): (r: seq<string>)
    ensures |r| == |lines| && forall i :: 0 <= i < |lines| ==> r[i] == Collapse(false, lines[i])
  {
    seq(|lines|, i requires 0 <= i < |lines| => Collapse(false, lines[i]))
  }

  lemma {:induction false} CollapseJoin(lines: seq<string>, separator: char)
    requires separator == '\n' || separator == '|'
    ensures Collapse(false, Join(lines, separator)) == Join(CollapseAll(lines), separator)
  {
    if |lines| > 1 {
      var tail := Join(lines[1..], separator);
      CollapseJoin(lines[1..], separator);
      assert CollapseAll(lines)[1..] == CollapseAll(lines[1..]);
      CollapseConcat(false, lines[0] + [separator], tail);
      CollapseConcat(false, lines[0], [separator]);
      var b := EndsBlank(false, lines[0]);
      assert Collapse(b, [separator]) == [separator] by { assert [separator][1..] == ""; }
      assert lines[0] + [separator] + tail == (lines[0] + [separator]) + tail;
    }
  }

  predicate CleanLine(line: string) {
    Trimmed(line) && Unseparated(line)
  }

  lemma {:induction false} JoinIsTrimmed(lines: seq<string>, separator: char)
    requires lines != [] && forall i :: 0 <= i < |lines| ==> Trimmed(lines[i])
    ensures Trimmed(Join(lines, separator))
  {
    if |lines| > 1 {
      JoinIsTrimmed(lines[1..], separator);
    }
  }

  lemma RecordsOfLine(line: string, separator: char, tail: string)
    requires (separator == '\n' || separator == '|') && CleanLine(line)
    ensures Records("", line + [separator] + tail) == [line] + Records("", tail)
    ensures Records("", line) == [line]
  {
    assert "" + line == line && line + "" == line;
    assert line + [separator] + tail == line + ([separator] + tail);
    RecordsOfRun("", line, [separator] + tail);
    RecordsOfRun("", line, "");
    assert ([separator] + tail)[1..] == tail;
  }

  lemma {:induction false} RecordsOfJoin(lines: seq<string>, separator: char)
    requires (separator == '\n' || separator == '|') && forall i :: 0 <= i < |lines| ==> CleanLine(lines[i])
    ensures Records("", Join(lines, separator)) == lines
  {
    hide Records, CleanLine;
    if lines == [] {
      NoRecordsInNothing();
    } else {
      RecordsOfLine(lines[0], separator, Join(lines[1..], separator));
      RecordsOfJoin(lines[1..], separator);
      assert lines == [lines[0]] + lines[1..];
    }
  }

  lemma NoRecordsInNothing()
    ensures Records("", "") == []
  {
  }

  /** Lines joined by newlines or bars are parsed line by line, each with its blanks collapsed. */
  lemma ParseJoined(lines: seq<string>, separator: char)
    requires separator == '\n' || separator == '|'
    requires forall i :: 0 <= i < |lines| ==> CleanLine(Collapse(false, lines[i]))
    ensures Parse(Join(lines, separator)) == ParseRecords(CollapseAll(lines))
  {
    hide ParseRecords;
    CollapseJoin(lines, separator);
    var shown := CollapseAll(lines);
    if lines != [] {
      JoinIsTrimmed(shown, separator);
      TrimmedStrip(Join(shown, separator));
    }
    RecordsOfJoin(shown, separator);
  }
}
