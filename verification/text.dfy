/** Splitting a string at a separator, joining the parts again, and the ASCII white space. */
module Text {
  predicate IsSpace(c: char) {
    c in {' ', '\t', '\n', '\r', '\U{000B}', '\U{000C}'}
  }

  // A space, or one of the control characters from tab to carriage return.
  predicate Blank(c: char) {
    c == ' ' || 9 <= c as int <= 13
  }

  function Split(s: string, sep: char): (parts: seq<string>)
    ensures parts != [] && forall x :: x in parts ==> sep !in x
  {
    if s == "" then [""]
    else
      var rest := Split(s[1..], sep);
      if s[0] == sep then [""] + rest else [[s[0]] + rest[0]] + rest[1..]
  }

  function Join(parts: seq<string>, sep: char): string {
    if parts == [] then ""
    else if |parts| == 1 then parts[0]
    else parts[0] + [sep] + Join(parts[1..], sep)
  }

  lemma {:induction false} SplitPrefix(first: string, rest: string, sep: char)
    requires sep !in first
    ensures Split(first + [sep] + rest, sep) == [first] + Split(rest, sep)
  {
    var s := first + [sep] + rest;
    if first == "" {
      assert s[1..] == rest;
    } else {
      assert s[1..] == first[1..] + [sep] + rest;
      SplitPrefix(first[1..], rest, sep);
      assert first == [first[0]] + first[1..];
    }
  }

  lemma {:induction false} SplitOne(s: string, sep: char)
    requires sep !in s
    ensures Split(s, sep) == [s]
  {
    if s != "" {
      SplitOne(s[1..], sep);
      assert s == [s[0]] + s[1..];
    }
  }

  lemma {:induction false} SplitUndoesJoin(parts: seq<string>, sep: char)
    requires parts != [] && forall x :: x in parts ==> sep !in x
    ensures Split(Join(parts, sep), sep) == parts
  {
    if |parts| == 1 {
      SplitOne(parts[0], sep);
    } else {
      SplitUndoesJoin(parts[1..], sep);
      SplitPrefix(parts[0], Join(parts[1..], sep), sep);
    }
  }

  lemma {:induction false} JoinUndoesSplit(s: string, sep: char)
    ensures Join(Split(s, sep), sep) == s
  {
    if s != "" {
      JoinUndoesSplit(s[1..], sep);
      var rest := Split(s[1..], sep);
      if s[0] == sep {
        assert ([""] + rest)[1..] == rest;
      } else {
        assert rest == [rest[0]] + rest[1..];
        assert Split(s, sep)[1..] == rest[1..];
      }
      assert s == [s[0]] + s[1..];
    }
  }

  lemma {:induction false} JoinedCharacters(parts: seq<string>, sep: char, c: char)
    requires c != sep && c in Join(parts, sep)
    ensures exists x :: x in parts && c in x
  {
    if |parts| == 1 {
      assert parts[0] in parts;
    } else if c in parts[0] {
      assert parts[0] in parts;
    } else {
      JoinedCharacters(parts[1..], sep, c);
      var x :| x in parts[1..] && c in x;
      assert x in parts;
    }
  }

  lemma {:induction false} PartCharacters(s: string, sep: char, x: string, c: char)
    requires x in Split(s, sep) && c in x
    ensures c in s
  {
    if s != "" {
      var rest := Split(s[1..], sep);
      if x in rest {
        PartCharacters(s[1..], sep, x, c);
      } else if s[0] != sep {
        assert x == [s[0]] + rest[0];
        if c != s[0] {
          assert rest[0] in rest;
          PartCharacters(s[1..], sep, rest[0], c);
        }
      }
    }
  }
}
