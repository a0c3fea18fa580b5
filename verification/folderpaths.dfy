/**
 Normalising the paths of a folder manifest. A string stands for its bytes; path cleaning follows its
 documented rules: empty and "." elements go, and ".." removes the name before it.
 */
module FolderPaths {
  import opened Text
  import opened Wrappers

  datatype FolderError = InvalidManifest | PathTraversal | PathCollision | LimitExceeded

  // ---- cleaning ----

  function Pushed(stack: seq<string>, segment: string): seq<string> {
    if segment == "" || segment == "." then stack
    else if segment == ".." && stack != [] && stack[|stack| - 1] != ".." then stack[..|stack| - 1]
    else stack + [segment]
  }

  function Cleaned(segments: seq<string>): seq<string> {
    if segments == [] then []
    else Pushed(Cleaned(segments[..|segments| - 1]), segments[|segments| - 1])
  }

  function Clean(value: string): string {
    var stack := Cleaned(Split(value, '/'));
    if stack == [] then "." else Join(stack, '/')
  }

  // How deep below the root a walk along the segments ends; negative is above it.
  function Depth(segments: seq<string>): int {
    if segments == [] then 0
    else
      var last := segments[|segments| - 1];
      var step := if last == "" || last == "." then 0 else if last == ".." then -1 else 1;
      Depth(segments[..|segments| - 1]) + step
  }

  // The walk climbs above the root somewhere on the way.
  ghost predicate Climbs(segments: seq<string>) {
    exists n :: 0 <= n <= |segments| && Depth(segments[..n]) < 0
  }

  // The highest point above the root.
  function Climb(segments: seq<string>): nat {
    if segments == [] then 0
    else
      var before := Climb(segments[..|segments| - 1]);
      if -Depth(segments) > before then -Depth(segments) else before
  }

  lemma {:induction false} ClimbIsTheHighest(segments: seq<string>)
    ensures Climb(segments) > 0 <==> Climbs(segments)
  {
    if segments == [] {
      assert forall n :: 0 <= n <= |segments| ==> segments[..n] == [];
    } else {
      var init := segments[..|segments| - 1];
      ClimbIsTheHighest(init);
      assert segments[..|segments|] == segments;
      assert forall n :: 0 <= n <= |init| ==> init[..n] == segments[..n];
      if Climbs(init) {
        var n :| 0 <= n <= |init| && Depth(init[..n]) < 0;
        assert Depth(segments[..n]) < 0;
      }
      if Depth(segments) < 0 {
        assert Depth(segments[..|segments|]) < 0;
      }
      if Climbs(segments) {
        var n :| 0 <= n <= |segments| && Depth(segments[..n]) < 0;
        if n < |segments| {
          assert Depth(init[..n]) < 0;
        }
      }
    }
  }

  predicate Name(segment: string) {
    segment != "" && segment != "." && segment != ".."
  }

  // The cleaned form is the climb and then the names still standing.
  lemma {:induction false} CleanedShape(segments: seq<string>)
    ensures var stack, up := Cleaned(segments), Climb(segments);
      && |stack| == Depth(segments) + 2 * up && up <= |stack|
      && (forall i :: 0 <= i < up ==> stack[i] == "..")
      && (forall i :: up <= i < |stack| ==> Name(stack[i]))
      && (forall x :: x in stack ==> x in segments)
  {
    if segments != [] {
      CleanedShape(segments[..|segments| - 1]);
    }
  }

  lemma {:induction false} NamesStay(segments: seq<string>)
    requires forall x :: x in segments ==> Name(x)
    ensures Cleaned(segments) == segments && Depth(segments) == |segments|
  {
    if segments != [] {
      assert Name(segments[|segments| - 1]);
      NamesStay(segments[..|segments| - 1]);
      assert segments == segments[..|segments| - 1] + [segments[|segments| - 1]];
    }
  }

  // ---- the checks of one segment ----

  predicate HasSuffix(s: string, c: char) {
    s != "" && s[|s| - 1] == c
  }

  predicate HasPrefix(s: string, prefix: string) {
    |prefix| <= |s| && s[..|prefix|] == prefix
  }

  predicate Contains(s: string, part: string) {
    exists i :: 0 <= i <= |s| - |part| && OccursAt(s, part, i)
  }

  predicate OccursAt(s: string, part: string, i: nat)
    requires i + |part| <= |s|
  {
    s[i..i + |part|] == part
  }

  function TrimRight(s: string): string {
    if s != "" && s[|s| - 1] in {' ', '.'} then TrimRight(s[..|s| - 1]) else s
  }

  function BeforeDot(s: string): string {
    if s == "" || s[0] == '.' then "" else [s[0]] + BeforeDot(s[1..])
  }

  function Upper(s: string): string {
    seq(|s|, i requires 0 <= i < |s| => if 'a' <= s[i] <= 'z' then s[i] - 'a' + 'A' else s[i])
  }

  predicate WindowsReserved(segment: string) {
    var base := Upper(BeforeDot(TrimRight(segment)));
    || base in {"CON", "PRN", "AUX", "NUL"}
    || (|base| == 4 && (HasPrefix(base, "COM") || HasPrefix(base, "LPT")) && '1' <= base[3] <= '9')
  }

  predicate GoodSegment(segment: string) {
    Name(segment) && !HasSuffix(segment, ' ') && !HasSuffix(segment, '.') && !WindowsReserved(segment)
  }

  predicate DriveQualified(value: string) {
    |value| >= 2 && ('a' <= value[0] <= 'z' || 'A' <= value[0] <= 'Z') && value[1] == ':'
  }

  function Slashed(value: string): string {
    seq(|value|, i requires 0 <= i < |value| => if value[i] == '\\' then '/' else value[i])
  }

  // ---- normalising ----

  predicate Escapes(cleaned: string) {
    cleaned == "." || cleaned == ".." || HasPrefix(cleaned, "../") || Contains(cleaned, "/../")
  }

  function Normalize(value: string): Result<(string, nat), FolderError> {
    var slashed := Slashed(value);
    if value == "" || '\0' in value then Err(InvalidManifest)
    else if HasPrefix(slashed, "/") || DriveQualified(slashed) || Escapes(Clean(slashed)) then Err(PathTraversal)
    else
      var segments := Split(Clean(slashed), '/');
      if exists x :: x in segments && !GoodSegment(x) then Err(InvalidManifest)
      else Ok((Join(segments, '/'), |segments|))
  }

  method NormalizePath(value: string) returns (r: Result<(string, nat), FolderError>)
    ensures r == Normalize(value)
  {
    if value == "" || '\0' in value {
      return Err(InvalidManifest);
    }
    var slashed := Slashed(value);
    if HasPrefix(slashed, "/") || HasPrefix(slashed, "//") || DriveQualified(slashed) {
      return Err(PathTraversal);
    }
    var cleaned := Clean(slashed);
    if cleaned == "." || cleaned == ".." || HasPrefix(cleaned, "../") || Contains(cleaned, "/../") {
      return Err(PathTraversal);
    }
    var segments := Split(cleaned, '/');
    for i := 0 to |segments|
      invariant forall j :: 0 <= j < i ==> GoodSegment(segments[j])
    {
      if !GoodSegment(segments[i]) {
        return Err(InvalidManifest);
      }
    }
    return Ok((Join(segments, '/'), |segments|));
  }

  // ---- what a cleaned string says about its segments ----

  lemma {:induction false} InnerDots(s: string, i: nat)
    requires i + 4 <= |s| && s[i..i + 4] == "/../"
    ensures ".." in Split(s, '/')[1..]
  {
    if i == 0 {
      assert s == "" + "/" + s[1..];
      SplitPrefix("", s[1..], '/');
      assert s[1..] == ".." + "/" + s[4..];
      SplitPrefix("..", s[4..], '/');
      assert Split(s, '/')[1] == "..";
    } else {
      assert s[1..][i - 1..i + 3] == s[i..i + 4];
      InnerDots(s[1..], i - 1);
      var rest := Split(s[1..], '/');
      if s[0] == '/' {
        assert Split(s, '/')[1..] == rest;
        assert forall x :: x in rest[1..] ==> x in rest;
      } else {
        assert Split(s, '/')[1..] == rest[1..];
      }
    }
  }

  lemma DotsPrefixSplits(s: string)
    requires HasPrefix(s, "../")
    ensures Split(s, '/')[0] == ".."
  {
    hide Split;
    assert s == s[..3] + s[3..] && s[..3] == "../";
    assert "../" == ".." + ['/'];
    SplitPrefix("..", s[3..], '/');
  }

  lemma DotsJoined(stack: seq<string>)
    requires stack != [] && stack[0] == ".."
    ensures Join(stack, '/') == ".." || HasPrefix(Join(stack, '/'), "../")
  {
    if |stack| > 1 {
      var s := Join(stack, '/');
      assert s == ".." + ['/'] + Join(stack[1..], '/');
      assert s[..3] == "../";
    }
  }

  lemma LeadingDots(stack: seq<string>)
    requires stack != [] && forall x :: x in stack ==> '/' !in x
    ensures stack[0] == ".." <==> Join(stack, '/') == ".." || HasPrefix(Join(stack, '/'), "../")
  {
    hide Split, Join;
    var s := Join(stack, '/');
    SplitUndoesJoin(stack, '/');
    if s == ".." {
      SplitOne(s, '/');
    }
    if HasPrefix(s, "../") {
      DotsPrefixSplits(s);
    }
    if stack[0] == ".." {
      DotsJoined(stack);
    }
  }

  lemma NoInnerDots(stack: seq<string>)
    requires stack != [] && forall x :: x in stack ==> '/' !in x
    ensures Contains(Join(stack, '/'), "/../") ==> ".." in stack
    ensures Join(stack, '/') == "." ==> stack == ["."]
  {
    hide Split, Join;
    SplitUndoesJoin(stack, '/');
    if Join(stack, '/') == "." {
      SplitOne(".", '/');
    }
    if Contains(Join(stack, '/'), "/../") {
      var i :| 0 <= i <= |Join(stack, '/')| - 4 && OccursAt(Join(stack, '/'), "/../", i);
      InnerDots(Join(stack, '/'), i);
    }
  }

  // The string tests for an escape hold exactly when the walk climbs above the root or ends on it.
  lemma EscapesIff(value: string)
    ensures var segments := Split(value, '/');
      Escapes(Clean(value)) <==> Climbs(segments) || Depth(segments) == 0
  {
    hide Split, Join, Contains, HasPrefix;
    var segments := Split(value, '/');
    var stack := Cleaned(segments);
    CleanedShape(segments);
    ClimbIsTheHighest(segments);
    if stack != [] {
      assert forall x :: x in stack ==> '/' !in x;
      LeadingDots(stack);
      NoInnerDots(stack);
    }
  }

  // For a relative path, traversal is reported exactly when it leaves the root or names it.
  lemma TraversalIff(value: string)
    requires value != "" && '\0' !in value
    ensures var slashed := Slashed(value);
      Normalize(value) == Err(PathTraversal) <==>
        || slashed[0] == '/' || DriveQualified(slashed)
        || Climbs(Split(slashed, '/')) || Depth(Split(slashed, '/')) == 0
  {
    EscapesIff(Slashed(value));
  }

  lemma CleanSplits(value: string)
    requires !Escapes(Clean(value))
    ensures Split(Clean(value), '/') == Cleaned(Split(value, '/'))
  {
    CleanedShape(Split(value, '/'));
    SplitUndoesJoin(Cleaned(Split(value, '/')), '/');
  }

  // A normalised path is relative and clean, and its depth is where the walk along the input ends.
  lemma NormalizedIsClean(value: string)
    requires Normalize(value).Ok?
    ensures var (path, depth) := Normalize(value).value;
      && path != "" && path[0] != '/' && '\\' !in path && '\0' !in path
      && (forall x :: x in Split(path, '/') ==> GoodSegment(x))
      && depth == |Split(path, '/')| == Depth(Split(Slashed(value), '/'))
  {
    var slashed := Slashed(value);
    var segments := Split(Clean(slashed), '/');
    var path := Join(segments, '/');
    EscapesIff(slashed);
    ClimbIsTheHighest(Split(slashed, '/'));
    CleanedShape(Split(slashed, '/'));
    CleanSplits(slashed);
    SplitUndoesJoin(segments, '/');
    JoinUndoesSplit(path, '/');
    assert GoodSegment(segments[0]);
    forall c | c in {'\\', '\0'}
      ensures c !in path
    {
      if c in path {
        JoinedCharacters(segments, '/', c);
        var x :| x in segments && c in x;
        assert x in Split(slashed, '/');
        PartCharacters(slashed, '/', x, c);
      }
    }
  }

  // Normalising a normalised path gives it back exactly when it does not read as a drive path;
  // otherwise it is refused.
  lemma NormalizeAgainIff(value: string)
    requires Normalize(value).Ok?
    ensures var (path, depth) := Normalize(value).value;
      && (Normalize(path) == Ok((path, depth)) <==> !DriveQualified(path))
      && (DriveQualified(path) ==> Normalize(path) == Err(PathTraversal))
  {
    var path := Normalize(value).value.0;
    NormalizedIsClean(value);
    assert Slashed(path) == path;
    var segments := Split(path, '/');
    NamesStay(segments);
    JoinUndoesSplit(path, '/');
    assert Clean(path) == path;
    EscapesIff(path);
    if Climbs(segments) {
      var n :| 0 <= n <= |segments| && Depth(segments[..n]) < 0;
      NamesStay(segments[..n]);
    }
  }

  // Such a path exists: dot elements can hide a drive from the first check.
  lemma HiddenDrive()
    ensures Normalize("./c:/x") == Ok(("c:/x", 2)) && Normalize("c:/x") == Err(PathTraversal)
  {
    hide Cleaned, Split, Join, GoodSegment, Depth, Contains;
    var value := "./c:/x";
    assert Slashed(value) == value && Slashed("c:/x") == "c:/x";
    HiddenSplit();
    HiddenClean();
    HiddenGood();
    assert Clean(value) == "c:/x";
    EscapesIff(value);
  }

  lemma HiddenSplit()
    ensures Split("./c:/x", '/') == [".", "c:", "x"] && Split("c:/x", '/') == ["c:", "x"]
    ensures Join(["c:", "x"], '/') == "c:/x"
  {
    hide Cleaned, Depth;
    assert "./c:/x" == "." + "/" + "c:/x" && "c:/x" == "c:" + "/" + "x";
    SplitPrefix(".", "c:/x", '/');
    SplitPrefix("c:", "x", '/');
    SplitOne("x", '/');
    JoinUndoesSplit("c:/x", '/');
  }

  lemma HiddenClean()
    ensures Cleaned([".", "c:", "x"]) == ["c:", "x"]
    ensures !Climbs([".", "c:", "x"]) && Depth([".", "c:", "x"]) == 2
  {
    hide Split, Join;
    var segments := [".", "c:", "x"];
    var none: seq<string> := [];
    assert segments[..0] == none && segments[..1] == ["."] && segments[..2] == [".", "c:"] && segments[..3] == segments;
    assert [".", "c:"][..1] == ["."] && ["."][..0] == none;
    assert Cleaned(none) == none && Cleaned(["."]) == none && Cleaned([".", "c:"]) == ["c:"];
    assert Depth(none) == 0 && Depth(["."]) == 0 && Depth([".", "c:"]) == 1 && Depth(segments) == 2;
    forall n | 0 <= n <= |segments|
      ensures Depth(segments[..n]) >= 0
    {
      assert n == 0 || n == 1 || n == 2 || n == 3;
    }
  }

  lemma HiddenGood()
    ensures forall x :: x in ["c:", "x"] ==> GoodSegment(x)
  {
    hide Split, Join, Cleaned, Depth;
    assert BeforeDot("c:"[1..]) == ":" by {
      assert "c:"[1..] == ":" && ":"[1..] == "";
    }
    assert |BeforeDot("c:")| == 2;
    assert "x"[1..] == "" && |BeforeDot("x")| == 1;
  }

  // ---- what cleaning and the checks come to ----

  lemma PushedTwice(stack: seq<string>, segment: string)
    requires Name(segment)
    ensures Pushed(Pushed(stack, segment), "..") == stack
  {
  }

  // Empty and "." elements do not matter, wherever they are.
  lemma {:induction false} DotsDoNotMatter(before: seq<string>, dot: string, after: seq<string>)
    requires dot == "" || dot == "."
    ensures Cleaned(before + [dot] + after) == Cleaned(before + after)
  {
    if after == [] {
      assert before + [dot] + after == before + [dot] && before + after == before;
      assert (before + [dot])[..|before|] == before;
    } else {
      var init, last := after[..|after| - 1], after[|after| - 1];
      DotsDoNotMatter(before, dot, init);
      var long, short := before + [dot] + after, before + after;
      assert long[..|long| - 1] == before + [dot] + init && short[..|short| - 1] == before + init;
      assert long[|long| - 1] == last && short[|short| - 1] == last;
    }
  }

  // A name and the ".." after it cancel, wherever they are.
  lemma {:induction false} NameAndDotsCancel(before: seq<string>, segment: string, after: seq<string>)
    requires Name(segment)
    ensures Cleaned(before + [segment, ".."] + after) == Cleaned(before + after)
  {
    if after == [] {
      var long := before + [segment, ".."];
      assert before + [segment, ".."] + after == long && before + after == before;
      assert long[..|long| - 1] == before + [segment] && (before + [segment])[..|before|] == before;
      PushedTwice(Cleaned(before), segment);
    } else {
      var init, last := after[..|after| - 1], after[|after| - 1];
      NameAndDotsCancel(before, segment, init);
      var long, short := before + [segment, ".."] + after, before + after;
      assert long[..|long| - 1] == before + [segment, ".."] + init && short[..|short| - 1] == before + init;
      assert long[|long| - 1] == last && short[|short| - 1] == last;
    }
  }

  predicate IsLetter(c: char) {
    ('A' <= c && c <= 'Z') || ('a' <= c && c <= 'z')
  }

  // A path is accepted exactly when it neither starts at a root or a drive nor leaves the folder, and
  // every element left by cleaning is a good name; then those elements are the result.
  lemma AcceptedPathIff(value: string)
    ensures Normalize(value).Ok? <==>
      && value != "" && '\0' !in value
      && value[0] != '/' && value[0] != '\\' && !(|value| > 1 && IsLetter(value[0]) && value[1] == ':')
      && !Climbs(Split(Slashed(value), '/')) && Depth(Split(Slashed(value), '/')) != 0
      && forall x :: x in Cleaned(Split(Slashed(value), '/')) ==> GoodSegment(x)
    ensures Normalize(value).Ok? ==>
      Normalize(value).value.0 == Join(Cleaned(Split(Slashed(value), '/')), '/')
  {
    hide GoodSegment, Clean, Climbs, Depth, Cleaned, Escapes;
    if value != "" && '\0' !in value {
      EscapesIff(Slashed(value));
      if !Escapes(Clean(Slashed(value))) {
        CleanSplits(Slashed(value));
      }
    }
  }

  // A backslash is as good as a slash, anywhere.
  lemma BackslashIsSlash(value: string, i: nat)
    requires i < |value| && value[i] == '\\'
    ensures Normalize(value[i := '/']) == Normalize(value)
  {
    assert Slashed(value[i := '/']) == Slashed(value);
    assert '\0' in value <==> '\0' in value[i := '/'] by {
      ZeroStays(value, i);
    }
  }

  lemma ZeroStays(value: string, i: nat)
    requires i < |value| && value[i] == '\\'
    ensures '\0' in value <==> '\0' in value[i := '/']
  {
    if '\0' in value {
      var j :| 0 <= j < |value| && value[j] == '\0';
      assert value[i := '/'][j] == '\0';
    }
  }

  // The same letters, whatever their case.
  predicate Reads(s: string, name: string) {
    && |s| == |name|
    && forall i :: 0 <= i < |s| ==> s[i] == name[i] || ('a' <= s[i] <= 'z' && s[i] as int - 32 == name[i] as int)
  }

  predicate ReservedName(s: string) {
    || Reads(s, "CON") || Reads(s, "PRN") || Reads(s, "AUX") || Reads(s, "NUL")
    || (|s| == 4 && (Reads(s[..3], "COM") || Reads(s[..3], "LPT"))
        && (s[3] == '1' || s[3] == '2' || s[3] == '3' || s[3] == '4' || s[3] == '5'
            || s[3] == '6' || s[3] == '7' || s[3] == '8' || s[3] == '9'))
  }

  lemma {:induction false} BeforeDotIs(s: string)
    ensures var b := BeforeDot(s);
      |b| <= |s| && b == s[..|b|] && '.' !in b && (|b| == |s| || s[|b|] == '.')
  {
    if s != "" && s[0] != '.' {
      BeforeDotIs(s[1..]);
    }
  }

  lemma UpperReads(s: string, name: string)
    requires forall c :: c in name ==> 'A' <= c <= 'Z'
    ensures Upper(s) == name <==> Reads(s, name)
  {
    if Reads(s, name) {
      forall i | 0 <= i < |s|
        ensures Upper(s)[i] == name[i]
      {
        assert name[i] in name;
      }
    }
    if Upper(s) == name {
      forall i | 0 <= i < |s|
        ensures s[i] == name[i] || ('a' <= s[i] <= 'z' && s[i] as int - 32 == name[i] as int)
      {
        assert Upper(s)[i] == name[i];
      }
    }
  }

  lemma UpperPrefix(s: string, n: nat)
    requires n <= |s|
    ensures Upper(s)[..n] == Upper(s[..n])
  {
  }

  lemma ReservedBase(base: string)
    ensures ReservedName(base) <==>
      var upper := Upper(base);
      upper in {"CON", "PRN", "AUX", "NUL"}
      || (|upper| == 4 && (HasPrefix(upper, "COM") || HasPrefix(upper, "LPT")) && '1' <= upper[3] <= '9')
  {
    hide Upper, Reads;
    UpperReads(base, "CON");
    UpperReads(base, "PRN");
    UpperReads(base, "AUX");
    UpperReads(base, "NUL");
    UpperLength(base);
    if |base| == 4 {
      UpperPrefix(base, 3);
      UpperReads(base[..3], "COM");
      UpperReads(base[..3], "LPT");
      DigitStays(base);
    }
  }

  lemma UpperLength(s: string)
    ensures |Upper(s)| == |s|
  {
  }

  lemma DigitStays(s: string)
    requires |s| == 4
    ensures |Upper(s)| == 4 && ('1' <= Upper(s)[3] <= '9' <==> '1' <= s[3] <= '9')
  {
  }

  // A good segment is a name that ends in neither a space nor a dot and whose part before the first dot
  // is no device of Windows, in any case.
  lemma GoodSegmentIff(segment: string)
    ensures GoodSegment(segment) <==>
      && segment != "" && segment != "." && segment != ".."
      && segment[|segment| - 1] != ' ' && segment[|segment| - 1] != '.'
      && forall n: nat :: n <= |segment| && (n == |segment| || segment[n] == '.') && '.' !in segment[..n] ==>
        !ReservedName(segment[..n])
  {
    hide ReservedName, Upper, BeforeDot;
    if segment != "" && segment[|segment| - 1] != ' ' && segment[|segment| - 1] != '.' {
      assert TrimRight(segment) == segment;
      BeforeDotIs(segment);
      var base := BeforeDot(segment);
      ReservedBase(base);
      assert forall n: nat :: n <= |segment| && (n == |segment| || segment[n] == '.') && '.' !in segment[..n] ==>
        n == |base|;
      assert segment[..|base|] == base;
    }
  }
}
