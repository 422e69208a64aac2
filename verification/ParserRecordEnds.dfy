/** What spaces behind a record change: nothing, unless they fill a value that was left open. */
module ParserRecordEnds {
  import opened Common
  import opened Text
  import opened Parsers
  import opened ParserPairs
  import opened ParserRaises
  import opened ParserRows

  // ---------------------------------------------------------------- spaces around a record

  lemma NothingInSpaces(inWord: bool, spaces: string)
    requires AllSpaces(spaces)
    ensures FindPairs(inWord, spaces) == []
    decreases |spaces|
  {
    hide PairAt, KeyAt;
    if spaces != "" {
      assert IsSpace(spaces[0]);
      NoKeyAt(spaces);
      FindSkip(inWord, spaces);
      assert forall i :: 0 <= i < |spaces| - 1 ==> spaces[1..][i] == spaces[i + 1];
      NothingInSpaces(IsWord(spaces[0]), spaces[1..]);
    }
  }

  lemma SpacesParse(spaces: string)
    requires AllSpaces(spaces)
    ensures ParseRecord(spaces) == Ok([])
  {
    hide FindPairs;
    NothingInSpaces(false, spaces);
    assert spaces + "" == spaces;
    LStripSpaces(spaces, "");
  }

  lemma LeadingSpace(c: char, r: string)
    requires IsSpace(c)
    ensures ParseRecord([c] + r) == ParseRecord(r)
  {
    hide FindPairs, LabelAt, RowDevice, PairAt, KeyAt;
    assert ([c] + r)[1..] == r;
    NoKeyAt([c] + r);
    FindSkip(false, [c] + r);
    LStripSpaces([c], r);
  }

  /** A text that ends in something visible. */
  predicate Ends(q: string) {
    q != "" && !IsSpace(q[|q| - 1])
  }

  lemma {:induction false} LStripEnds(q: string, spaces: string)
    requires Ends(q)
    ensures LStrip(q + spaces) == LStrip(q) + spaces && Ends(LStrip(q))
    decreases |q|
  {
    if IsSpace(q[0]) {
      assert (q + spaces)[1..] == q[1..] + spaces;
      LStripEnds(q[1..], spaces);
    }
  }

  predicate NoSpaceIn(literal: string) {
    forall i :: 0 <= i < |literal| ==> !IsSpace(literal[i])
  }

  lemma BeginsEnds(q: string, spaces: string, literal: string)
    requires AllSpaces(spaces) && NoSpaceIn(literal)
    ensures Begins(q + spaces, literal) <==> Begins(q, literal)
  {
    var s := q + spaces;
    if |q| < |literal| && |q| < |s| {
      assert IsSpace(s[|q|]) && Lower(s[|q|]) == s[|q|];
    }
    assert forall i :: 0 <= i < |q| ==> s[i] == q[i];
  }

  lemma KeyEnds(q: string, spaces: string)
    requires AllSpaces(spaces)
    ensures KeyAt(q + spaces) == KeyAt(q)
  {
    hide Begins;
    BeginsEnds(q, spaces, "busid");
    BeginsEnds(q, spaces, "bus_id");
    BeginsEnds(q, spaces, "id");
    BeginsEnds(q, spaces, "type");
    BeginsEnds(q, spaces, "devname");
    BeginsEnds(q, spaces, "name");
    BeginsEnds(q, spaces, "maxpos");
  }

  lemma {:induction false} BodyEnds(x: string, spaces: string)
    requires AllSpaces(spaces)
    ensures Body(x + spaces) == if Body(x) == x then x + spaces else Body(x)
  {
    if x == "" {
      assert x + spaces == spaces;
      BodyOfSpaces(spaces);
    } else {
      assert (x + spaces)[1..] == x[1..] + spaces;
      BodyEnds(x[1..], spaces);
      assert x == [x[0]] + x[1..];
    }
  }

  lemma {:induction false} BodyOfSpaces(spaces: string)
    requires AllSpaces(spaces)
    ensures Body(spaces) == spaces
  {
    if spaces != "" {
      assert IsSpace(spaces[0]);
      assert forall i :: 0 <= i < |spaces| - 1 ==> spaces[1..][i] == spaces[i + 1];
      BodyOfSpaces(spaces[1..]);
    }
  }

  lemma StripEnds(x: string, spaces: string)
    requires AllSpaces(spaces)
    ensures Strip(x + spaces) == Strip(x)
  {
    hide LStrip, RStrip;
    var r := RStrip(x);
    var w := x[|r|..];
    assert AllSpaces(w) && AllSpaces(w + spaces) && x == r + w;
    assert x + spaces == r + (w + spaces);
    if r == "" {
      assert x == w && x + spaces == w + spaces;
      LStripNothing(w);
      LStripNothing(w + spaces);
    } else {
      LStripEnds(r, w);
      LStripEnds(r, w + spaces);
      RStripSpaces(LStrip(r), w);
      RStripSpaces(LStrip(r), w + spaces);
    }
  }

  /** A separator with nothing behind it. */
  predicate IsOpen(s: string): (open: bool)
    ensures open ==> s != "" && (s[|s| - 1] == ':' || s[|s| - 1] == '=')
  {
    var r := LStrip(s);
    r == ":" || r == "="
  }

  lemma BodyMatchEnds(x: string, spaces: string)
    requires AllSpaces(spaces) && Ends(x)
    ensures Body(x) != "" <==> Body(x + spaces) != ""
    ensures Strip(Body(x + spaces)) == Strip(Body(x))
    ensures var rest := x[|Body(x)|..];
      (x + spaces)[|Body(x + spaces)|..] == if rest == "" then "" else rest + spaces
    ensures x[|Body(x)|..] == "" || Ends(x[|Body(x)|..])
  {
    hide Strip, Body;
    BodyEnds(x, spaces);
    StripEnds(x, spaces);
    if Body(x) != x {
      assert |Body(x)| < |x| by { assert Body(x) == x[..|Body(x)|]; }
      assert (x + spaces)[|Body(x)|..] == x[|Body(x)|..] + spaces;
    }
  }

  /** Spaces behind a visible end change nothing, except that they fill an open value. */
  lemma ValueEnds(s: string, spaces: string)
    requires AllSpaces(spaces) && spaces != "" && (s == "" || Ends(s))
    ensures IsOpen(s) ==> ValueAt(s).None? && ValueAt(s + spaces) == Some(Match("", ""))
    ensures !IsOpen(s) ==> ValueAt(s + spaces) == match ValueAt(s)
      case None => None
      case Some(m) => Some(Match(m.value, if m.rest == "" then "" else m.rest + spaces))
    ensures ValueAt(s).Some? ==> ValueAt(s).value.rest == "" || Ends(ValueAt(s).value.rest)
  {
    hide Strip, Body, LStrip, AllSpaces, IsSpace, IsStop;
    if s == "" {
      assert s + spaces == spaces;
      LStripNothing(spaces);
    } else {
      LStripEnds(s, spaces);
      var r := LStrip(s);
      assert (r + spaces)[0] == r[0];
      if r[0] == ':' || r[0] == '=' {
        assert (r + spaces)[1..] == r[1..] + spaces;
        if |r| == 1 {
          assert r == [r[0]] && r[1..] == "" && r[1..] + spaces == spaces;
          OpenValue(spaces);
        } else {
          assert r[1..][|r| - 2] == r[|r| - 1];
          BodyMatchEnds(r[1..], spaces);
        }
      }
    }
  }

  lemma RStripNothing()
    ensures RStrip("") == ""
  {
  }

  lemma OpenValue(spaces: string)
    requires AllSpaces(spaces)
    ensures Body("") == "" && Body(spaces) == spaces && Strip(spaces) == ""
  {
    BodyOfSpaces(spaces);
    LStripNothing(spaces);
    RStripNothing();
  }

  lemma LStripNothing(spaces: string)
    requires AllSpaces(spaces)
    ensures LStrip(spaces) == "" && LStrip("") == ""
  {
    assert spaces + "" == spaces;
    LStripSpaces(spaces, "");
  }

  /** A key at the start of `q` with a separator and nothing else behind it. */
  function OpenHere(q: string): Option<Key> {
    match KeyAt(q)
    case None => None
    case Some(key) => if IsOpen(q[|KeyText(key)|..]) then Some(key) else None
  }

  /** The key that stands open at the very end of `q`, outside any value. */
  function OpenKey(inWord: bool, q: string): Option<Key>
    decreases |q|
  {
    if q == "" then None
    else
      match if inWord then None else PairAt(q)
      case Some(m) => OpenKey(false, m.rest)
      case None => if !inWord && OpenHere(q).Some? then OpenHere(q) else OpenKey(IsWord(q[0]), q[1..])
  }

  function OpenPairs(key: Option<Key>): seq<Pair> {
    match key
    case None => []
    case Some(k) => [Pair(k, "")]
  }

  lemma OpenHereEnds(q: string)
    ensures OpenHere(q).Some? ==> q != "" && (q[|q| - 1] == ':' || q[|q| - 1] == '=')
  {
    hide KeyAt, IsOpen;
  }

  ghost predicate IsTail(s: string, r: string) {
    |r| <= |s| && r == s[|s| - |r|..]
  }

  lemma TailTwice(s: string, t: string, r: string)
    requires IsTail(s, t) && IsTail(t, r)
    ensures IsTail(s, r)
  {
  }

  lemma ValueRest(s: string, m: Match)
    requires ValueAt(s) == Some(m)
    ensures IsTail(s, m.rest)
  {
    hide Strip, LStrip, Body;
    var r := LStrip(s);
    assert IsTail(s, r) && IsTail(r, r[1..]) && IsTail(r[1..], m.rest);
    TailTwice(r, r[1..], m.rest);
    TailTwice(s, r, m.rest);
  }

  lemma MatchRest(q: string, m: Match)
    requires PairAt(q) == Some(m)
    ensures |m.rest| < |q| && m.rest == q[|q| - |m.rest|..]
  {
    hide KeyAt, ValueAt;
    var s := q[|KeyText(KeyAt(q).value)|..];
    ValueRest(s, m);
    TailTwice(q, s, m.rest);
  }

  lemma {:induction false} OpenKeyEnds(inWord: bool, q: string)
    requires OpenKey(inWord, q).Some?
    ensures q != "" && (q[|q| - 1] == ':' || q[|q| - 1] == '=')
    decreases |q|
  {
    hide PairAt, OpenHere;
    OpenHereEnds(q);
    match if inWord then None else PairAt(q)
    case Some(m) =>
      MatchRest(q, m);
      OpenKeyEnds(false, m.rest);
    case None => if inWord || OpenHere(q).None? { OpenKeyEnds(IsWord(q[0]), q[1..]); }
  }

  /** What spaces at the end change in a match at the start: an open key is matched with them. */
  lemma PairEnds(q: string, spaces: string)
    requires AllSpaces(spaces) && spaces != "" && Ends(q)
    ensures OpenHere(q).Some? ==>
      PairAt(q).None? && PairAt(q + spaces) == Some(Match("", "")) && KeyAt(q + spaces) == OpenHere(q)
    ensures OpenHere(q).None? ==> PairAt(q + spaces) == match PairAt(q)
      case None => None
      case Some(m) => Some(Match(m.value, if m.rest == "" then "" else m.rest + spaces))
    ensures PairAt(q).Some? ==> KeyAt(q + spaces) == KeyAt(q)
    ensures PairAt(q).Some? ==> PairAt(q).value.rest == "" || Ends(PairAt(q).value.rest)
  {
    hide KeyAt, ValueAt, IsOpen;
    KeyEnds(q, spaces);
    if KeyAt(q).Some? {
      var k := |KeyText(KeyAt(q).value)|;
      assert (q + spaces)[k..] == q[k..] + spaces;
      ValueEnds(q[k..], spaces);
    }
  }

  lemma OpenStep(s: string)
    requires IsOpen(s)
    ensures s != "" && Lower(s[0]) !in "bitdnm"
    ensures if IsSpace(s[0]) then IsOpen(s[1..]) else s[1..] == ""
  {
  }

  lemma {:induction false} NothingInOpen(inWord: bool, s: string)
    requires IsOpen(s)
    ensures FindPairs(inWord, s) == []
    decreases |s|
  {
    hide FindPairs, PairAt, KeyAt, IsOpen;
    OpenStep(s);
    NoKeyAt(s);
    FindSkip(inWord, s);
    if IsSpace(s[0]) {
      NothingInOpen(IsWord(s[0]), s[1..]);
    } else {
      NothingInSpaces(IsWord(s[0]), "");
    }
  }

  lemma OpenMatch(q: string, m: Match)
    requires q != "" && PairAt(q) == Some(m)
    ensures OpenKey(false, q) == OpenKey(false, m.rest)
  {
    hide PairAt, OpenHere;
  }

  lemma OpenSkip(inWord: bool, q: string)
    requires q != "" && (inWord || (PairAt(q).None? && OpenHere(q).None?))
    ensures OpenKey(inWord, q) == OpenKey(IsWord(q[0]), q[1..])
  {
    hide PairAt, OpenHere;
  }

  lemma OpenNow(q: string)
    requires q != "" && PairAt(q).None? && OpenHere(q).Some?
    ensures OpenKey(false, q) == OpenHere(q)
  {
    hide PairAt, OpenHere;
  }

  lemma KeyIsWord(key: Key, i: nat)
    requires i < |KeyText(key)|
    ensures IsWord(KeyText(key)[i])
  {
  }

  /** Nothing is found in a key that stands open. */
  lemma OpenRest(q: string)
    requires OpenHere(q).Some?
    ensures FindPairs(false, q) == []
  {
    hide KeyAt, ValueAt, FindPairs, IsWord, KeyText, IsOpen;
    var k := |KeyText(KeyAt(q).value)|;
    var rest := q[k..];
    OpenHasNoValue(rest);
    assert PairAt(q).None?;
    forall i | 0 <= i < k ensures IsWord(q[i]) {
      KeyIsWord(KeyAt(q).value, i);
      LowerIsWord(q[i]);
    }
    FindSkip(false, q);
    assert q[1..] == q[1..k] + rest;
    WordSkipped(q[1..k], rest);
    NothingInOpen(true, rest);
  }

  lemma LowerIsWord(c: char)
    ensures IsWord(Lower(c)) ==> IsWord(c)
  {
  }

  lemma OpenHasNoValue(s: string)
    requires IsOpen(s)
    ensures ValueAt(s).None?
  {
  }

  lemma {:induction false} PairsEnd(inWord: bool, q: string, spaces: string)
    requires AllSpaces(spaces) && spaces != "" && (q == "" || Ends(q))
    ensures FindPairs(inWord, q + spaces) == FindPairs(inWord, q) + OpenPairs(OpenKey(inWord, q))
    decreases |q|
  {
    hide KeyAt, PairAt, OpenHere, FindPairs, OpenKey, AllSpaces, IsWord;
    NothingInSpaces(inWord, spaces);
    assert AllSpaces("") by { NoSpaces(); }
    NothingInSpaces(inWord, "");
    if q == "" {
      assert q + spaces == spaces;
      NoOpenKey(inWord);
    } else {
      PairEnds(q, spaces);
      assert (q + spaces)[1..] == q[1..] + spaces;
      if !inWord && PairAt(q).Some? {
        var m := PairAt(q).value;
        FindMatch(q, m);
        OpenMatch(q, m);
        MatchEnds(q, spaces, m);
        PairsEnd(false, m.rest, spaces);
      } else if !inWord && OpenHere(q).Some? {
        OpenNow(q);
        FindMatch(q + spaces, Match("", ""));
        OpenRest(q);
        NothingFound();
      } else {
        FindSkip(inWord, q);
        OpenSkip(inWord, q);
        FindSkip(inWord, q + spaces);
        PairsEnd(IsWord(q[0]), q[1..], spaces);
      }
    }
  }

  lemma MatchEnds(q: string, spaces: string, m: Match)
    requires AllSpaces(spaces) && spaces != "" && Ends(q) && PairAt(q) == Some(m)
    ensures m.rest == "" || Ends(m.rest)
    ensures FindPairs(false, q + spaces)
      == [Pair(KeyAt(q).value, m.value)] + FindPairs(false, m.rest + spaces)
    decreases |q|
  {
    hide KeyAt, PairAt, OpenHere, FindPairs, AllSpaces;
    PairEnds(q, spaces);
    assert m.rest == "" ==> m.rest + spaces == spaces;
    NothingInSpaces(false, spaces);
    NothingFound();
    FindMatch(q + spaces, Match(m.value, if m.rest == "" then "" else m.rest + spaces));
  }

  lemma NoSpaces()
    ensures AllSpaces("")
  {
  }

  lemma NoOpenKey(inWord: bool)
    ensures OpenKey(inWord, "").None?
  {
  }

  // ---------------------------------------------------------------- spaces behind a firmware row

  lemma GapEnds(s: string, spaces: string)
    requires AllSpaces(spaces) && (s == "" || Ends(s))
    ensures if s == "" then Gap(s).None? && (Gap(s + spaces).None? || Gap(s + spaces) == Some(""))
            else if Gap(s).None? then Gap(s + spaces).None?
            else Gap(s + spaces) == Some(Gap(s).value + spaces) && Ends(Gap(s).value)
  {
    hide LStrip;
    if s == "" {
      assert s + spaces == spaces;
      LStripNothing(spaces);
    } else {
      LStripEnds(s, spaces);
    }
  }

  /** The rest behind a match goes on into the spaces. */
  predicate SameRest(a: Option<string>, b: Option<string>, spaces: string) {
    if b.None? then a.None? else a == Some(b.value + spaces) && (b.value == "" || Ends(b.value))
  }

  lemma OneWordEnds(s: string, spaces: string, word: string)
    requires AllSpaces(spaces) && NoSpaceIn(word) && (s == "" || Ends(s))
    ensures SameRest(OneWord(s + spaces, word), OneWord(s, word), spaces)
  {
    BeginsEnds(s, spaces, word);
    hide Begins;
    if |word| <= |s| {
      assert (s + spaces)[|word|..] == s[|word|..] + spaces;
      assert spaces == "" || !IsWord(spaces[0]);
    }
    assert Begins(s, word) ==> |word| <= |s| by { BeginsLength(s, word); }
  }

  lemma BeginsLength(s: string, word: string)
    ensures Begins(s, word) ==> |word| <= |s|
  {
  }

  lemma BoundaryEnds(rest: string, spaces: string)
    requires AllSpaces(spaces)
    ensures Boundary(rest + spaces) <==> Boundary(rest)
  {
  }

  lemma WordBehindGapEnds(v: string, spaces: string, second: string)
    requires AllSpaces(spaces) && NoSpaceIn(second) && Ends(v)
    ensures Begins(v + spaces, second) <==> Begins(v, second)
    ensures Begins(v, second) ==>
      var rest := v[|second|..];
      (v + spaces)[|second|..] == rest + spaces && (Boundary(rest + spaces) <==> Boundary(rest)) && (rest == "" || Ends(rest))
  {
    BeginsEnds(v, spaces, second);
    BeginsLength(v, second);
    hide Begins, Boundary;
    if Begins(v, second) {
      assert (v + spaces)[|second|..] == v[|second|..] + spaces;
      BoundaryEnds(v[|second|..], spaces);
    }
  }

  lemma SecondWordEnds(t: string, spaces: string, second: string)
    requires AllSpaces(spaces) && NoSpaceIn(second) && second != "" && (t == "" || Ends(t))
    ensures SameRest(SecondWord(t + spaces, second), SecondWord(t, second), spaces)
  {
    GapEnds(t, spaces);
    BeginsLength("", second);
    hide Begins, Gap, Boundary, AllSpaces, NoSpaceIn, Ends;
    if t != "" && Gap(t).Some? { WordBehindGapEnds(Gap(t).value, spaces, second); }
  }

  lemma TwoWordsEnds(s: string, spaces: string, first: string, second: string)
    requires AllSpaces(spaces) && NoSpaceIn(first) && NoSpaceIn(second) && second != "" && (s == "" || Ends(s))
    ensures SameRest(TwoWords(s + spaces, first, second), TwoWords(s, first, second), spaces)
  {
    BeginsEnds(s, spaces, first);
    BeginsLength(s, first);
    hide Begins, SecondWord;
    if Begins(s, first) {
      assert (s + spaces)[|first|..] == s[|first|..] + spaces;
      SecondWordEnds(s[|first|..], spaces, second);
    }
  }

  lemma LabelEnds(s: string, spaces: string)
    requires AllSpaces(spaces) && (s == "" || Ends(s))
    ensures match LabelAt(s)
      case None => LabelAt(s + spaces).None?
      case Some(row) => LabelAt(s + spaces) == Some(Label(row.kind, row.rest + spaces))
  {
    hide TwoWords, OneWord, AllSpaces, Ends;
    TwoWordsEnds(s, spaces, "coverpct", "u");
    TwoWordsEnds(s, spaces, "cover", "u");
    TwoWordsEnds(s, spaces, "alarm", "board");
    OneWordEnds(s, spaces, "coverpct");
    OneWordEnds(s, spaces, "switch");
    OneWordEnds(s, spaces, "dimmer");
    OneWordEnds(s, spaces, "cover");
    OneWordEnds(s, spaces, "generic");
  }

  lemma BusIdEnds(s: string, spaces: string)
    requires AllSpaces(spaces)
    ensures HexAt(s + spaces, 2) <==> HexAt(s, 2)
    ensures HexAt(s, 2) ==> (s + spaces)[2..] == s[2..] + spaces && (s + spaces)[..2] == s[..2]
  {
    assert forall i :: 0 <= i < |s| ==> (s + spaces)[i] == s[i];
    if |s| < 2 && |s| < |s + spaces| { assert IsSpace((s + spaces)[|s|]); }
  }

  lemma LabelPartEnds(t: string, spaces: string)
    requires AllSpaces(spaces) && (t == "" || Ends(t))
    ensures match LabelAt(LStrip(t))
      case None => LabelAt(LStrip(t + spaces)).None?
      case Some(row) => LabelAt(LStrip(t + spaces)) == Some(Label(row.kind, row.rest + spaces))
  {
    hide LStrip, LabelAt;
    if t == "" {
      assert t + spaces == spaces;
      LStripNothing(spaces);
      LabelEnds("", "");
      assert "" + "" == "";
      NoLabel();
    } else {
      LStripEnds(t, spaces);
      LabelEnds(LStrip(t), spaces);
    }
  }

  lemma NoLabel()
    ensures LabelAt("").None?
  {
    hide Begins;
    BeginsLength("", "coverpct");
    BeginsLength("", "cover");
    BeginsLength("", "alarm");
    BeginsLength("", "switch");
    BeginsLength("", "dimmer");
    BeginsLength("", "generic");
  }

  lemma RowDeviceEnds(busId: string, row: Label, spaces: string)
    requires AllSpaces(spaces)
    ensures RowDevice(busId, Label(row.kind, row.rest + spaces)) == RowDevice(busId, row)
  {
    hide Strip, CalibrationAt;
    StripEnds(row.rest, spaces);
  }

  lemma RowEnds(q: string, spaces: string)
    requires AllSpaces(spaces) && Ends(q)
    ensures FirmwareDevice(q + spaces) == FirmwareDevice(q)
  {
    hide LStrip, LabelAt, RowDevice, HexAt, AllSpaces, UpperAll;
    LStripEnds(q, spaces);
    var s := LStrip(q);
    BusIdEnds(s, spaces);
    if HexAt(s, 2) {
      assert 2 <= |s| by { HexLength(s, 2); }
      LabelPartEnds(s[2..], spaces);
      match LabelAt(LStrip(s[2..]))
      case None =>
      case Some(row) => RowDeviceEnds(UpperAll(s[..2]), row, spaces);
    }
  }

  lemma HexLength(s: string, n: nat)
    ensures HexAt(s, n) ==> n <= |s|
  {
  }

  // ---------------------------------------------------------------- stops

  ghost predicate HasStop(s: string) {
    exists i :: 0 <= i < |s| && IsStop(s[i])
  }

  /** The stops of `s` are in its suffix `r`. */
  ghost predicate KeepsStops(s: string, r: string) {
    |r| <= |s| && r == s[|s| - |r|..] && forall i :: 0 <= i < |s| - |r| ==> !IsStop(s[i])
  }

  lemma StopsKept(s: string, r: string)
    requires KeepsStops(s, r)
    ensures HasStop(s) ==> HasStop(r)
  {
    var n := |s| - |r|;
    if i :| 0 <= i < |s| && IsStop(s[i]) { assert r[i - n] == s[i]; }
  }

  lemma KeptTwice(s: string, t: string, r: string)
    requires KeepsStops(s, t) && KeepsStops(t, r)
    ensures KeepsStops(s, r)
  {
    var n := |s| - |t|;
    forall i | 0 <= i < |s| - |r| ensures !IsStop(s[i]) {
      if i >= n { assert s[i] == t[i - n]; }
    }
  }

  lemma KeptWhole(s: string)
    ensures KeepsStops(s, s)
  {
  }

  lemma KeptTail(s: string)
    requires s != "" && IsSpace(s[0])
    ensures KeepsStops(s, s[1..])
  {
  }

  lemma {:induction false} LStripStops(s: string)
    ensures KeepsStops(s, LStrip(s))
  {
    hide KeepsStops;
    if s != "" && IsSpace(s[0]) {
      LStripStops(s[1..]);
      KeptTail(s);
      KeptTwice(s, s[1..], LStrip(s));
    } else {
      KeptWhole(s);
    }
  }

  lemma RStripStops(s: string)
    requires HasStop(s)
    ensures HasStop(RStrip(s))
  {
    hide RStrip;
    var i :| 0 <= i < |s| && IsStop(s[i]);
    assert i < |RStrip(s)| && RStrip(s)[i] == s[i];
  }

  lemma StripStops(s: string)
    requires HasStop(s)
    ensures HasStop(Strip(s))
  {
    hide LStrip, RStrip, KeepsStops, HasStop;
    LStripStops(s);
    StopsKept(s, LStrip(s));
    RStripStops(LStrip(s));
  }

  lemma WordStops(s: string, word: string)
    requires Begins(s, word) && LowerCase(word) && !HasStop(word)
    ensures KeepsStops(s, s[|word|..])
  {
    forall i | 0 <= i < |word| ensures !IsStop(s[i]) { assert !IsStop(word[i]); }
  }

  lemma HexStops(s: string, n: nat)
    requires HexAt(s, n)
    ensures KeepsStops(s, s[n..])
  {
  }

  lemma GapStops(s: string)
    ensures Gap(s).Some? ==> KeepsStops(s, Gap(s).value)
  {
    LStripStops(s);
  }

  lemma GapHexStops(s: string, n: nat)
    ensures GapHex(s, n).Some? ==> KeepsStops(s, GapHex(s, n).value)
  {
    hide Gap, KeepsStops;
    GapStops(s);
    if GapHex(s, n).Some? {
      HexStops(Gap(s).value, n);
      KeptTwice(s, Gap(s).value, GapHex(s, n).value);
    }
  }

  lemma OneWordStops(s: string, word: string)
    requires LowerCase(word) && !HasStop(word)
    ensures OneWord(s, word).Some? ==> KeepsStops(s, OneWord(s, word).value)
  {
    if Begins(s, word) { WordStops(s, word); }
  }

  lemma TwoWordsStops(s: string, first: string, second: string)
    requires LowerCase(first) && !HasStop(first) && LowerCase(second) && !HasStop(second)
    ensures TwoWords(s, first, second).Some? ==> KeepsStops(s, TwoWords(s, first, second).value)
  {
    hide Gap, KeepsStops, Begins, LowerCase, HasStop;
    if TwoWords(s, first, second).Some? {
      BeginsLength(s, first);
      WordStops(s, first);
      var t := s[|first|..];
      GapStops(t);
      var v := Gap(t).value;
      BeginsLength(v, second);
      WordStops(v, second);
      KeptTwice(t, v, v[|second|..]);
      KeptTwice(s, t, v[|second|..]);
    }
  }

  lemma LabelWordsLower()
    ensures LowerCase("coverpct") && LowerCase("cover") && LowerCase("u") && LowerCase("alarm") && LowerCase("board")
    ensures LowerCase("switch") && LowerCase("dimmer") && LowerCase("generic")
  {
  }

  lemma LabelWordsStopless()
    ensures !HasStop("coverpct") && !HasStop("cover") && !HasStop("u") && !HasStop("alarm") && !HasStop("board")
    ensures !HasStop("switch") && !HasStop("dimmer") && !HasStop("generic")
  {
  }

  lemma LabelStops(s: string)
    ensures LabelAt(s).Some? ==> KeepsStops(s, LabelAt(s).value.rest)
  {
    hide TwoWords, OneWord, KeepsStops, HasStop, LowerCase;
    LabelWordsLower();
    LabelWordsStopless();
    TwoWordsStops(s, "coverpct", "u");
    TwoWordsStops(s, "cover", "u");
    TwoWordsStops(s, "alarm", "board");
    OneWordStops(s, "coverpct");
    OneWordStops(s, "switch");
    OneWordStops(s, "dimmer");
    OneWordStops(s, "cover");
    OneWordStops(s, "generic");
  }

  lemma CalibrationStops(s: string)
    ensures CalibrationAt(s).Some? ==> KeepsStops(s, CalibrationAt(s).value.rest)
  {
    hide GapHex, Gap, KeepsStops, HexAt;
    if CalibrationAt(s).Some? {
      HexLength(s, 4);
      HexStops(s, 4);
      var t := s[4..];
      GapHexStops(t, 4);
      var a := GapHex(t, 4).value;
      GapHexStops(a, 2);
      var b := GapHex(a, 2).value;
      GapHexStops(b, 4);
      var c := GapHex(b, 4).value;
      GapHexStops(c, 2);
      var d := GapHex(c, 2).value;
      GapStops(d);
      KeptTwice(s, t, a);
      KeptTwice(s, a, b);
      KeptTwice(s, b, c);
      KeptTwice(s, c, d);
      if d != "" { KeptTwice(s, d, Gap(d).value); }
    }
  }

  lemma RowDeviceStops(busId: string, row: Label)
    requires HasStop(row.rest)
    ensures var name := RowDevice(busId, row).name; name.Some? && HasStop(name.value)
  {
    hide CalibrationAt, KeepsStops, HasStop, Strip;
    StripStops(row.rest);
    var name := Strip(row.rest);
    NothingStops();
    if IsPercent(row.kind) && CalibrationAt(name).Some? {
      CalibrationStops(name);
      StopsKept(name, CalibrationAt(name).value.rest);
      StripStops(CalibrationAt(name).value.rest);
    }
  }

  /** The name of a firmware row keeps the stops of the record. */
  lemma RowNameStops(record: string)
    requires HasStop(record) && FirmwareDevice(record).Some?
    ensures var name := FirmwareDevice(record).value.name; name.Some? && HasStop(name.value)
  {
    hide LabelAt, RowDevice, KeepsStops, HasStop, Strip, LStrip, HexAt, UpperAll;
    LStripStops(record);
    var s := LStrip(record);
    HexLength(s, 2);
    HexStops(s, 2);
    LStripStops(s[2..]);
    var t := LStrip(s[2..]);
    LabelStops(t);
    var row := LabelAt(t).value;
    KeptTwice(record, s, s[2..]);
    KeptTwice(record, s[2..], t);
    KeptTwice(record, t, row.rest);
    StopsKept(record, row.rest);
    RowDeviceStops(UpperAll(s[..2]), row);
  }

  lemma NothingStops()
    ensures !HasStop("")
  {
  }

  // ---------------------------------------------------------------- values have no stops

  ghost predicate NoStops(pairs: seq<Pair>) {
    forall i :: 0 <= i < |pairs| ==> !HasStop(pairs[i].value)
  }

  lemma LStripAddsNoStop(s: string)
    ensures HasStop(LStrip(s)) ==> HasStop(s)
  {
    hide LStrip;
    var l := LStrip(s);
    if i :| 0 <= i < |l| && IsStop(l[i]) { assert s[|s| - |l| + i] == l[i]; }
  }

  lemma RStripAddsNoStop(s: string)
    ensures HasStop(RStrip(s)) ==> HasStop(s)
  {
    hide RStrip;
    var r := RStrip(s);
    if i :| 0 <= i < |r| && IsStop(r[i]) { assert s[i] == r[i]; }
  }

  lemma ValueHasNoStop(s: string)
    ensures ValueAt(s).Some? ==> !HasStop(ValueAt(s).value.value)
  {
    hide LStrip, RStrip;
    if ValueAt(s).Some? {
      var body := Body(LStrip(s)[1..]);
      LStripAddsNoStop(body);
      RStripAddsNoStop(LStrip(body));
    }
  }

  lemma {:induction false} ValuesHaveNoStops(inWord: bool, s: string)
    ensures NoStops(FindPairs(inWord, s))
    decreases |s|
  {
    hide KeyAt, ValueAt, HasStop;
    if s != "" {
      match if inWord then None else PairAt(s)
      case Some(m) =>
        ValueHasNoStop(s[|KeyText(KeyAt(s).value)|..]);
        ValuesHaveNoStops(false, m.rest);
      case None => ValuesHaveNoStops(IsWord(s[0]), s[1..]);
    }
  }

  lemma {:induction false} GotHasNoStop(pairs: seq<Pair>, key: Key)
    requires NoStops(pairs) && Get(pairs, key).Some?
    ensures !HasStop(Get(pairs, key).value)
  {
    hide HasStop;
    if pairs[|pairs| - 1].key != key { GotHasNoStop(pairs[..|pairs| - 1], key); }
  }

  /** Between a value and an open key there is a stop. */
  lemma {:induction false} OpenBehindValue(inWord: bool, q: string)
    requires OpenKey(inWord, q).Some? && FindPairs(inWord, q) != []
    ensures HasStop(q)
    decreases |q|
  {
    hide PairAt, KeyAt, OpenHere, IsStop;
    match if inWord then None else PairAt(q)
    case Some(m) =>
      MatchRest(q, m);
      assert m.rest != "" && IsStop(q[|q| - |m.rest|]);
    case None =>
      if !inWord && OpenHere(q).Some? {
        OpenRest(q);
      } else {
        FindSkip(inWord, q);
        OpenBehindValue(IsWord(q[0]), q[1..]);
        var i :| 0 <= i < |q| - 1 && IsStop(q[1..][i]);
        assert IsStop(q[i + 1]);
      }
  }

  // ---------------------------------------------------------------- what an open key overwrites

  /** The bus id once the value of one of its keys is gone. */
  function BusIdWithout(pairs: seq<Pair>, key: Key): Option<string> {
    match key
    case BusId => Or(Get(pairs, Bus_Id), Get(pairs, Id))
    case Bus_Id => Or(Get(pairs, BusId), Get(pairs, Id))
    case Id => Or(Get(pairs, BusId), Get(pairs, Bus_Id))
    case _ => BusIdOf(pairs)
  }

  /** An empty value for `key` changes the device of a row: the bus id changes or is lost, a number is
      lost, or the name is lost or another one takes its place.  A row that raises goes on raising
      unless its bus id or the refused number is lost. */
  ghost predicate Overwrites(pairs: seq<Pair>, key: Key) {
    Truthy(BusIdOf(pairs)) &&
    match key
    case Type => LooksLikeInt(Get(pairs, Type)) && !Refused(Get(pairs, MaxPos))
    case MaxPos => LooksLikeInt(Get(pairs, MaxPos)) && !Refused(Get(pairs, Type))
    case DevName =>
      !IntsRaise(pairs) && Truthy(Get(pairs, DevName)) && Get(pairs, Name) != Get(pairs, DevName)
    case Name =>
      !IntsRaise(pairs) && !Truthy(Get(pairs, DevName)) && Get(pairs, Name) != Some("")
    case _ =>
      var bus := BusIdWithout(pairs, key);
      if Truthy(bus) then bus != BusIdOf(pairs) && !IntsRaise(pairs) else true
  }

  /** A record whose open key would overwrite something. */
  ghost predicate Dangles(record: string) {
    var key := OpenKey(false, record);
    key.Some? && Overwrites(FindPairs(false, record), key.value)
  }

  lemma DanglesOpen(record: string)
    requires Dangles(record)
    ensures record != "" && (record[|record| - 1] == ':' || record[|record| - 1] == '=')
  {
    hide OpenKey, FindPairs, Overwrites;
    OpenKeyEnds(false, record);
  }

  /** What `ParseRecord` makes of the pairs when the row pattern gives `otherwise`. */
  function OfPairs(pairs: seq<Pair>, otherwise: Option<Device>): Result<seq<Device>> {
    if Truthy(BusIdOf(pairs)) then
      match PairsDevice(pairs, BusIdOf(pairs).value)
      case Ok(d) => Ok([d])
      case Raised => Raised
    else
      match otherwise
      case Some(d) => Ok([d])
      case None => Ok([])
  }

  lemma RecordIsOfPairs(record: string)
    ensures ParseRecord(record) == OfPairs(FindPairs(false, record), FirmwareDevice(record))
  {
    hide FindPairs, FirmwareDevice;
  }

  lemma AppendedGet(pairs: seq<Pair>, key: Key, wanted: Key)
    ensures Get(pairs + [Pair(key, "")], wanted) == if key == wanted then Some("") else Get(pairs, wanted)
  {
    assert (pairs + [Pair(key, "")])[..|pairs|] == pairs;
  }

  lemma AppendedBusId(pairs: seq<Pair>, key: Key)
    ensures var after := BusIdOf(pairs + [Pair(key, "")]);
      if Truthy(BusIdWithout(pairs, key)) then after == BusIdWithout(pairs, key) else !Truthy(after)
  {
    hide Get;
    AppendedGet(pairs, key, BusId);
    AppendedGet(pairs, key, Bus_Id);
    AppendedGet(pairs, key, Id);
  }

  lemma EmptyIsNoInt()
    ensures IntField(Some("")) == Ok(None) && !Refused(Some(""))
  {
    IntFieldCases(Some(""));
  }

  /** Appending an empty value changes what becomes of the pairs iff it overwrites something. */
  lemma OverwritesIff(pairs: seq<Pair>, key: Key, otherwise: Option<Device>)
    requires otherwise.Some? && Truthy(BusIdOf(pairs)) ==> PairsDevice(pairs, BusIdOf(pairs).value) != Ok(otherwise.value)
    ensures OfPairs(pairs + [Pair(key, "")], otherwise) == OfPairs(pairs, otherwise) <==> !Overwrites(pairs, key)
  {
    hide Get, BusIdOf, PairsDevice, IntField, Refused, LooksLikeInt;
    var after := pairs + [Pair(key, "")];
    AppendedBusId(pairs, key);
    AppendedGet(pairs, key, Type);
    AppendedGet(pairs, key, MaxPos);
    AppendedGet(pairs, key, DevName);
    AppendedGet(pairs, key, Name);
    EmptyIsNoInt();
    IntFieldCases(Get(pairs, Type));
    IntFieldCases(Get(pairs, MaxPos));
    BusIdKept(pairs, key);
    if Truthy(BusIdOf(pairs)) { PairsDeviceCases(pairs, BusIdOf(pairs).value); }
    if Truthy(BusIdOf(after)) { PairsDeviceCases(after, BusIdOf(after).value); }
  }

  lemma BusIdKept(pairs: seq<Pair>, key: Key)
    ensures Truthy(BusIdWithout(pairs, key)) ==> Truthy(BusIdOf(pairs))
    ensures key in {Type, MaxPos, DevName, Name} ==> BusIdWithout(pairs, key) == BusIdOf(pairs)
  {
    hide Get;
  }

  /** Spaces behind a record change what becomes of it iff it dangles. */
  lemma RecordEndsIff(record: string, spaces: string)
    requires AllSpaces(spaces) && spaces != "" && Ends(record)
    ensures ParseRecord(record + spaces) == ParseRecord(record) <==> !Dangles(record)
  {
    hide FindPairs, FirmwareDevice, OfPairs, Overwrites, OpenKey, BusIdOf, AllSpaces, Ends, PairsDevice, HasStop;
    PairsEnd(false, record, spaces);
    RowEnds(record, spaces);
    RecordIsOfPairs(record);
    RecordIsOfPairs(record + spaces);
    var pairs, key, row := FindPairs(false, record), OpenKey(false, record), FirmwareDevice(record);
    match key
    case None => assert pairs + [] == pairs;
    case Some(k) =>
      if row.Some? && Truthy(BusIdOf(pairs)) { RowIsNotPairs(record); }
      OverwritesIff(pairs, k, row);
  }

  /** With a key open at its end, a record is not the same device as a row and as pairs. */
  lemma RowIsNotPairs(record: string)
    requires OpenKey(false, record).Some? && FirmwareDevice(record).Some?
    requires Truthy(BusIdOf(FindPairs(false, record)))
    ensures var pairs := FindPairs(false, record);
      PairsDevice(pairs, BusIdOf(pairs).value) != Ok(FirmwareDevice(record).value)
  {
    hide FindPairs, FirmwareDevice, OpenKey, HasStop, IntField, Get, NoStops;
    var pairs := FindPairs(false, record);
    NothingGot();
    OpenBehindValue(false, record);
    RowNameStops(record);
    ValuesHaveNoStops(false, record);
    if Get(pairs, DevName).Some? { GotHasNoStop(pairs, DevName); }
    if Get(pairs, Name).Some? { GotHasNoStop(pairs, Name); }
  }

  lemma NothingGot()
    ensures !Truthy(BusIdOf([]))
  {
  }
}
