/** The callback path check of api.py, measured against the dot segment removal of section 5.2.4
of RFC 3986. */
module CallbackPath {
  import opened Text

  predicate IsPathChar(c: char) {
    'A' <= c <= 'Z' || 'a' <= c <= 'z' || '0' <= c <= '9' || c in "._~/-"
  }

  /** The pattern `^/[A-Za-z0-9._~/-]+$` over the whole path. */
  predicate HasLegalCharacters(path: string) {
    |path| >= 2 && path[0] == '/' && forall i :: 0 <= i < |path| ==> IsPathChar(path[i])
  }

  /** Characters before the first slash. */
  function Head(s: string): (n: nat)
    ensures n <= |s| && (n < |s| ==> s[n] == '/') && '/' !in s[..n]
  {
    if s == "" || s[0] == '/' then 0
    else
      var n := Head(s[1..]);
      assert s[..n + 1] == [s[0]] + s[1..][..n];
      n + 1
  }

  /** `split("/")` */
  function Segments(s: string): (r: seq<string>)
    ensures r != []
  {
    var n := Head(s);
    if n == |s| then [s] else [s[..n]] + Segments(s[n + 1..])
  }

  predicate IsDots(segment: string) {
    segment == "." || segment == ".."
  }

  /** `_valid_callback_path` */
  predicate ValidCallbackPath(path: string) {
    && HasLegalCharacters(path)
    && var segments := Segments(path[1..]);
       segments != [] && forall s :: s in segments ==> s !in {"", ".", ".."}
  }

  // ---------------------------------------------------------------- section 5.2.4 of RFC 3986

  /** Without its last segment and the slash before it, if there is one. */
  function DropLast(output: string): (r: string)
    ensures |r| <= |output|
  {
    if output == "" then ""
    else if output[|output| - 1] == '/' then output[..|output| - 1]
    else DropLast(output[..|output| - 1])
  }

  lemma {:induction false} DropLastMeans(front: string, last: string)
    requires '/' !in last
    ensures DropLast(front + "/" + last) == front && DropLast(last) == ""
  {
    if last == "" {
      assert front + "/" + last == front + "/";
    } else {
      var n := |last| - 1;
      assert last[n] in last && '/' !in last[..n];
      assert (front + "/" + last)[..|front| + 1 + n] == front + "/" + last[..n];
      DropLastMeans(front, last[..n]);
    }
  }

  /** How much of the input step 2E moves: the first segment with the slash before it. */
  function FirstSegment(input: string): (n: nat)
    requires input != ""
    ensures 0 < n <= |input|
  {
    if input[0] == '/' then 1 + Head(input[1..]) else Head(input)
  }

  /** `remove_dot_segments`, step by step over its two buffers. */
  function RemoveDots(input: string, output: string): (r: string)
    ensures |r| <= |input| + |output|
    decreases |input|
  {
    if input == "" then output
    else if "../" <= input then RemoveDots(input[3..], output)
    else if "./" <= input then RemoveDots(input[2..], output)
    else if "/./" <= input then RemoveDots(input[2..], output)
    else if input == "/." then RemoveDots("/", output)
    else if "/../" <= input then RemoveDots(input[3..], DropLast(output))
    else if input == "/.." then RemoveDots("/", DropLast(output))
    else if IsDots(input) then RemoveDots("", output)
    else
      var n := FirstSegment(input);
      RemoveDots(input[n..], output + input[..n])
  }

  // ---------------------------------------------------------------- the two agree

  /** On a path that starts with a slash, the buffer is looked at one segment at a time. */
  lemma DotStep(input: string)
    requires input != "" && input[0] == '/'
    ensures var n := Head(input[1..]);
      IsDots(input[1..][..n]) <==>
      "/./" <= input || input == "/." || "/../" <= input || input == "/.."
  {
    var rest := input[1..];
    var n := Head(rest);
    var segment := rest[..n];
    assert segment == input[1..n + 1];
    if segment == "." {
      assert input[1] == '.';
      assert n + 1 < |input| ==> input[2] == '/' && input[..3] == "/./";
      assert n + 1 == |input| ==> input == "/.";
    }
    if segment == ".." {
      assert input[1] == '.' && input[2] == '.';
      assert n + 1 < |input| ==> input[3] == '/' && input[..4] == "/../";
      assert n + 1 == |input| ==> input == "/..";
    }
    if "/./" <= input { HeadIs(rest, 1); }
    if "/../" <= input { HeadIs(rest, 2); }
    if input == "/." || input == "/.." { HeadIs(rest, |rest|); }
  }

  lemma {:induction false} HeadIs(s: string, n: nat)
    requires n <= |s| && '/' !in s[..n] && (n < |s| ==> s[n] == '/')
    ensures Head(s) == n
  {
    if n > 0 {
      assert s[0] in s[..n];
      assert s[..n] == [s[0]] + s[1..][..n - 1];
      HeadIs(s[1..], n - 1);
    }
  }

  lemma Finish(output: string)
    ensures RemoveDots("", output) == output
  {
  }

  lemma Unfold(input: string, output: string)
    requires input != "" && input[0] == '/' && !IsDots(input[1..][..Head(input[1..])])
    ensures var n := 1 + Head(input[1..]); RemoveDots(input, output) == RemoveDots(input[n..], output + input[..n])
  {
    hide Head, DropLast;
    DotStep(input);
  }

  lemma Regroup(output: string, segment: string)
    ensures output + ("/" + segment) == output + "/" + segment
  {
  }

  /** A first segment that is no dot segment is moved. */
  lemma MoveStep(rest: string, output: string)
    requires !IsDots(rest[..Head(rest)])
    ensures var n := Head(rest);
      RemoveDots("/" + rest, output)
      == if n == |rest| then output + "/" + rest else RemoveDots(rest[n..], output + "/" + rest[..n])
  {
    hide Head, RemoveDots, IsDots;
    var input, n := "/" + rest, Head(rest);
    assert input[1..] == rest;
    Unfold(input, output);
    assert input[n + 1..] == rest[n..] && input[..n + 1] == "/" + rest[..n];
    Regroup(output, rest[..n]);
    if n == |rest| {
      assert rest[..n] == rest && rest[n..] == "";
      Finish(output + "/" + rest);
    }
  }

  /** A first segment that is a dot segment shortens what is left to do. */
  lemma DropStep(rest: string, output: string)
    requires IsDots(rest[..Head(rest)])
    ensures |RemoveDots("/" + rest, output)| < 1 + |rest| + |output|
  {
    hide Head;
    var input := "/" + rest;
    assert input[1..] == rest;
    DotStep(input);
  }

  lemma SegmentsStep(rest: string)
    requires Head(rest) < |rest|
    ensures var n := Head(rest);
      forall s :: s in Segments(rest) <==> s == rest[..n] || s in Segments(rest[n + 1..])
  {
    hide Head;
    var n := Head(rest);
    assert Segments(rest) == [rest[..n]] + Segments(rest[n + 1..]);
  }

  /** A path without dot segments is moved to the output as it is; any dot segment makes the result
      shorter than the path. */
  lemma {:induction false} DotsShorten(rest: string, output: string)
    ensures var r := RemoveDots("/" + rest, output);
      if exists s :: s in Segments(rest) && IsDots(s) then |r| < 1 + |rest| + |output|
      else r == output + "/" + rest
    decreases |rest|
  {
    hide RemoveDots, Head, Segments, IsDots;
    var n := Head(rest);
    if n < |rest| { SegmentsStep(rest); } else { OneSegment(rest); }
    if IsDots(rest[..n]) {
      DropStep(rest, output);
    } else {
      MoveStep(rest, output);
      if n < |rest| {
        var next := rest[n + 1..];
        assert rest[n..] == "/" + next && rest == rest[..n] + ("/" + next);
        DotsShorten(next, output + "/" + rest[..n]);
        assert output + "/" + rest[..n] + "/" + next == output + "/" + rest;
      }
    }
  }

  lemma OneSegment(rest: string)
    requires Head(rest) == |rest|
    ensures Segments(rest) == [rest[..Head(rest)]]
  {
    assert rest[..|rest|] == rest;
  }

  /** The check accepts exactly the paths of legal characters that have no empty segment and that
      dot segment removal leaves alone. */
  lemma AcceptedIffNormal(path: string)
    ensures ValidCallbackPath(path) <==>
      HasLegalCharacters(path) && "" !in Segments(path[1..]) && RemoveDots(path, "") == path
  {
    hide RemoveDots, Segments, IsPathChar;
    if HasLegalCharacters(path) {
      DotsShorten(path[1..], "");
      assert "/" + path[1..] == path;
      assert "" + "/" + path[1..] == path;
    }
  }

  // ---------------------------------------------------------------- in characters

  /** An empty segment shows as a slash at the end or before another slash. */
  predicate SlashAt(path: string, i: int) {
    0 <= i < |path| && path[i] == '/' && (i == |path| - 1 || path[i + 1] == '/')
  }

  lemma {:induction false} EmptySegmentIff(rest: string)
    ensures "" in Segments(rest) <==> exists i :: SlashAt("/" + rest, i)
    decreases |rest|
  {
    hide Segments, Head;
    var path, n := "/" + rest, Head(rest);
    if n < |rest| {
      var next := rest[n + 1..];
      SegmentsStep(rest);
      EmptySegmentIff(next);
      assert forall i :: 0 <= i <= |next| ==> path[n + 1 + i] == ("/" + next)[i];
      NoSlashBefore(rest);
      if n == 0 { assert SlashAt(path, 0); }
      if i :| SlashAt("/" + next, i) { assert SlashAt(path, n + 1 + i); }
      if i :| SlashAt(path, i) {
        if i > 0 { assert SlashAt("/" + next, i - n - 1); }
      }
    } else {
      OneSegment(rest);
      NoSlashBefore(rest);
      if rest == "" { assert SlashAt(path, 0); }
    }
  }

  lemma NoSlashBefore(rest: string)
    ensures forall i :: 1 <= i <= Head(rest) ==> ("/" + rest)[i] != '/'
  {
    hide Head;
    forall i | 1 <= i <= Head(rest) ensures ("/" + rest)[i] != '/' { assert rest[..Head(rest)][i - 1] != '/'; }
  }

  predicate IsLegal(c: char) {
    IsLetter(c) || c in "0123456789" || c in "._~/-"
  }

  lemma LegalMeans(c: char)
    ensures IsPathChar(c) <==> IsLegal(c)
  {
    SmallAt(c, 0);
    LargeAt(c, 0);
    Numerals(c);
  }

  lemma Numerals(c: char)
    ensures c in "0123456789" <==> '0' <= c <= '9'
  {
    var numerals := "0123456789";
    assert forall j :: 0 <= j < 10 ==> numerals[j] == '0' + j as char;
    if '0' <= c <= '9' { assert numerals[(c - '0') as int] == c; }
  }

  /** The check accepts exactly the paths of two or more legal characters that start with a slash, have
      no two slashes in a row and none at the end, and that dot segment removal leaves alone. */
  lemma AcceptedMeans(path: string)
    ensures ValidCallbackPath(path) <==>
      && |path| >= 2 && path[0] == '/' && (forall i :: 0 <= i < |path| ==> IsLegal(path[i]))
      && (forall i :: !SlashAt(path, i)) && RemoveDots(path, "") == path
  {
    hide ValidCallbackPath, RemoveDots, Segments, IsPathChar, IsLegal, SlashAt;
    AcceptedIffNormal(path);
    forall i | 0 <= i < |path| ensures IsPathChar(path[i]) <==> IsLegal(path[i]) { LegalMeans(path[i]); }
    if |path| >= 2 && path[0] == '/' {
      EmptySegmentIff(path[1..]);
      assert "/" + path[1..] == path;
    }
  }
}
