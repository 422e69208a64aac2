/** ASCII text as Python's `str` and `re` see it. */
module Text {

  /** `str.isspace`, and `\s` of a pattern. */
  predicate IsSpace(c: char) {
    c == ' ' || '\t' <= c <= '\r' || '\U{1C}' <= c <= '\U{1F}'
  }

  /** `\w` of a pattern. */
  predicate IsWord(c: char) {
    'a' <= c <= 'z' || 'A' <= c <= 'Z' || '0' <= c <= '9' || c == '_'
  }

  predicate IsDigit(c: char) {
    '0' <= c <= '9'
  }

  predicate IsHex(c: char) {
    IsDigit(c) || 'a' <= c <= 'f' || 'A' <= c <= 'F'
  }

  function Lower(c: char): char {
    if 'A' <= c <= 'Z' then c - 'A' + 'a' else c
  }

  function Upper(c: char): char {
    if 'a' <= c <= 'z' then c - 'a' + 'A' else c
  }

  function UpperAll(s: string): (r: string)
    ensures |r| == |s| && forall i :: 0 <= i < |s| ==> r[i] == Upper(s[i])
  {
    seq(|s|, i requires 0 <= i < |s| => Upper(s[i]))
  }

  function LowerAll(s: string): (r: string)
    ensures |r| == |s|
  {
    seq(|s|, i requires 0 <= i < |s| => Lower(s[i]))
  }

  /** `part in s` */
  predicate Contains(s: string, part: string) {
    part <= s || (s != "" && Contains(s[1..], part))
  }

  predicate OccursAt(s: string, part: string, i: int) {
    0 <= i && i + |part| <= |s| && s[i..i + |part|] == part
  }

  lemma {:induction false} ContainsMeans(s: string, part: string)
    requires part != ""
    ensures Contains(s, part) <==> exists i :: OccursAt(s, part, i)
  {
    if s != "" {
      ContainsMeans(s[1..], part);
      if i :| OccursAt(s, part, i) && i > 0 {
        assert s[1..][i - 1..i - 1 + |part|] == s[i..i + |part|];
        assert OccursAt(s[1..], part, i - 1);
      }
      if i :| OccursAt(s[1..], part, i) {
        assert s[i + 1..i + 1 + |part|] == s[1..][i..i + |part|];
        assert OccursAt(s, part, i + 1);
      }
      if part <= s { assert OccursAt(s, part, 0); }
    }
  }

  /** A case-insensitive literal at the start of `s`; `literal` is lower case. */
  predicate Begins(s: string, literal: string) {
    |literal| <= |s| && forall i :: 0 <= i < |literal| ==> Lower(s[i]) == literal[i]
  }

  /** `\b` between a word character and `rest`. */
  predicate Boundary(rest: string) {
    rest == "" || !IsWord(rest[0])
  }

  function LStrip(s: string): (r: string)
    ensures |r| <= |s| && r == s[|s| - |r|..]
    ensures r != "" ==> !IsSpace(r[0])
  {
    if s != "" && IsSpace(s[0]) then LStrip(s[1..]) else s
  }

  function RStrip(s: string): (r: string)
    ensures |r| <= |s| && r == s[..|r|]
    ensures r != "" ==> !IsSpace(r[|r| - 1])
    ensures forall i :: |r| <= i < |s| ==> IsSpace(s[i])
  {
    if s != "" && IsSpace(s[|s| - 1]) then RStrip(s[..|s| - 1]) else s
  }

  function Strip(s: string): (r: string)
    ensures |r| <= |s|
  {
    RStrip(LStrip(s))
  }

  predicate Trimmed(s: string) {
    s != "" && !IsSpace(s[0]) && !IsSpace(s[|s| - 1])
  }

  predicate AllSpaces(s: string) {
    forall i :: 0 <= i < |s| ==> IsSpace(s[i])
  }

  lemma Regroup(a: string, b: string, c: string)
    ensures a + (b + c) == (a + b) + c
  {
  }

  lemma TrimmedStrip(s: string)
    requires Trimmed(s)
    ensures LStrip(s) == s && RStrip(s) == s && Strip(s) == s
  {
  }

  lemma {:induction false} LStripSpaces(spaces: string, s: string)
    requires AllSpaces(spaces)
    ensures LStrip(spaces + s) == LStrip(s)
  {
    if spaces == "" {
      assert spaces + s == s;
    } else {
      assert (spaces + s)[1..] == spaces[1..] + s;
      LStripSpaces(spaces[1..], s);
    }
  }

  lemma {:induction false} RStripSpaces(s: string, spaces: string)
    requires AllSpaces(spaces)
    ensures RStrip(s + spaces) == RStrip(s)
  {
    if spaces == "" {
      assert s + spaces == s;
    } else {
      var n := |spaces| - 1;
      assert (s + spaces)[..|s| + n] == s + spaces[..n];
      RStripSpaces(s, spaces[..n]);
    }
  }

  lemma {:induction false} RStripAppend(s: string, t: string)
    requires RStrip(t) != ""
    ensures RStrip(s + t) == s + RStrip(t)
  {
    var r := RStrip(t);
    assert s + t == (s + r) + t[|r|..];
    RStripSpaces(s + r, t[|r|..]);
  }

  // ---------------------------------------------------------------- letters

  const SMALL := "abcdefghijklmnopqrstuvwxyz"
  const LARGE := "ABCDEFGHIJKLMNOPQRSTUVWXYZ"

  lemma SmallAt(c: char, i: nat)
    requires i < 26
    ensures SMALL[i] == 'a' + i as char
    ensures c in SMALL <==> 'a' <= c <= 'z'
  {
    assert forall j :: 0 <= j < 26 ==> SMALL[j] == 'a' + j as char;
    if 'a' <= c <= 'z' { assert SMALL[(c - 'a') as int] == c; }
  }

  lemma LargeAt(c: char, i: nat)
    requires i < 26
    ensures LARGE[i] == 'A' + i as char
    ensures c in LARGE <==> 'A' <= c <= 'Z'
  {
    assert forall j :: 0 <= j < 26 ==> LARGE[j] == 'A' + j as char;
    if 'A' <= c <= 'Z' { assert LARGE[(c - 'A') as int] == c; }
  }

  predicate IsLetter(c: char) {
    c in SMALL || c in LARGE
  }

  /** Letters change case, nothing else does. */
  lemma CaseMeans(i: nat, c: char)
    requires i < 26 && !IsLetter(c)
    ensures Upper(SMALL[i]) == LARGE[i] == Upper(LARGE[i]) && Upper(c) == c
    ensures Lower(LARGE[i]) == SMALL[i] == Lower(SMALL[i]) && Lower(c) == c
  {
    SmallAt(c, i);
    LargeAt(c, i);
    CaseOf('a' + i as char, 'A' + i as char);
    OtherCase(c);
  }

  lemma CaseOf(small: char, large: char)
    requires 'a' <= small <= 'z' && large == small - 'a' + 'A'
    ensures Upper(small) == large == Upper(large) && Lower(large) == small == Lower(small)
  {
  }

  lemma OtherCase(c: char)
    requires !('a' <= c <= 'z') && !('A' <= c <= 'Z')
    ensures Upper(c) == c == Lower(c)
  {
  }

  lemma Figures(c: char)
    ensures c in "0123456789_" <==> '0' <= c <= '9' || c == '_'
  {
    var figures := "0123456789_";
    assert forall j :: 0 <= j < 10 ==> figures[j] == '0' + j as char;
    if '0' <= c <= '9' { assert figures[(c - '0') as int] == c; }
    if c == '_' { assert figures[10] == c; }
  }

  lemma WordMeans(c: char)
    ensures IsWord(c) <==> IsLetter(c) || c in "0123456789_"
  {
    SmallAt(c, 0);
    LargeAt(c, 0);
    Figures(c);
  }
}
