/** Splitting, joining, stripping and trimming text. */
module TextTools {

  /** The parts between separators; there is always at least one. */
  function Split(s: string, sep: char): (parts: seq<string>)
    ensures parts != []
  {
    if s == "" then [""]
    else if s[0] == sep then [""] + Split(s[1..], sep)
    else var rest := Split(s[1..], sep); [[s[0]] + rest[0]] + rest[1..]
  }

  function SkipEmpty(parts: seq<string>): seq<string> {
    if parts == [] then []
    else (if parts[0] == "" then [] else [parts[0]]) + SkipEmpty(parts[1..])
  }

  function Join(parts: seq<string>, sep: char): string {
    if parts == [] then ""
    else if |parts| == 1 then parts[0]
    else parts[0] + [sep] + Join(parts[1..], sep)
  }

  /** The text without any occurrence of a pattern. */
  function Strip(s: string, pattern: string): string
    requires pattern != ""
  {
    if s == "" then ""
    else if pattern <= s then Strip(s[|pattern|..], pattern)
    else [s[0]] + Strip(s[1..], pattern)
  }

  predicate Contains(s: string, pattern: string) {
    pattern <= s || (s != "" && Contains(s[1..], pattern))
  }

  lemma {:induction false} SplitFirst(a: string, b: string, sep: char)
    requires sep !in a
    ensures Split(a + [sep] + b, sep) == [a] + Split(b, sep)
  {
    var s := a + [sep] + b;
    if a == "" {
      assert s[1..] == b;
    } else {
      assert s[0] == a[0] && a[0] in a && s[1..] == a[1..] + [sep] + b;
      SplitFirst(a[1..], b, sep);
      assert ([a[1..]] + Split(b, sep))[1..] == Split(b, sep);
      assert a == [a[0]] + a[1..];
    }
  }

  lemma {:induction false} SplitNone(a: string, sep: char)
    requires sep !in a
    ensures Split(a, sep) == [a]
  {
    if a != "" {
      assert a[0] in a && a == [a[0]] + a[1..];
      SplitNone(a[1..], sep);
      assert [a[1..]][1..] == [];
    }
  }

  /** Splitting undoes joining of parts that have no separator. */
  lemma {:induction false} SplitJoin(parts: seq<string>, sep: char)
    requires parts != [] && forall p <- parts :: sep !in p
    ensures Split(Join(parts, sep), sep) == parts
  {
    assert parts[0] in parts;
    if |parts| == 1 {
      SplitNone(parts[0], sep);
    } else {
      SplitJoin(parts[1..], sep);
      SplitFirst(parts[0], Join(parts[1..], sep), sep);
    }
  }

  lemma {:induction false} SplitParts(s: string, sep: char)
    ensures forall p <- Split(s, sep) :: sep !in p && forall c <- p :: c in s
  {
    if s != "" {
      var rest := Split(s[1..], sep);
      SplitParts(s[1..], sep);
      assert forall c <- s[1..] :: c in s;
      assert rest[0] in rest && forall p <- rest[1..] :: p in rest;
      forall p <- Split(s, sep) ensures sep !in p && forall c <- p :: c in s {
        if s[0] != sep && p == [s[0]] + rest[0] {
          assert forall c <- p :: c == s[0] || c in rest[0];
        }
      }
    }
  }

  lemma {:induction false} SkipEmptyParts(parts: seq<string>)
    ensures forall p <- SkipEmpty(parts) :: p in parts && p != ""
  {
    if parts != [] {
      SkipEmptyParts(parts[1..]);
    }
  }

  lemma {:induction false} StripAbsent(s: string, pattern: string)
    requires pattern != "" && pattern[0] !in s
    ensures Strip(s, pattern) == s
  {
    if s != "" {
      assert s[0] in s;
      StripAbsent(s[1..], pattern);
    }
  }

  lemma StripPrefix(s: string, pattern: string)
    requires pattern != "" && pattern[0] !in s
    ensures Strip(pattern + s, pattern) == s
  {
    assert (pattern + s)[|pattern|..] == s;
    assert (pattern + s)[..|pattern|] == pattern;
    StripAbsent(s, pattern);
  }

  lemma {:induction false} StripSuffix(s: string, pattern: string)
    requires pattern != "" && pattern[0] !in s
    ensures Strip(s + pattern, pattern) == s
  {
    var t := s + pattern;
    if s == "" {
      assert t == pattern && t[|pattern|..] == "";
    } else {
      assert t[0] == s[0] && s[0] in s;
      assert !(pattern <= t);
      assert t[1..] == s[1..] + pattern;
      StripSuffix(s[1..], pattern);
    }
  }

  /** A pattern without newlines is stripped line by line. */
  lemma {:induction false} StripLine(a: string, b: string, pattern: string)
    requires pattern != "" && '\n' !in pattern && '\n' !in a
    ensures Strip(a + "\n" + b, pattern) == Strip(a, pattern) + "\n" + Strip(b, pattern)
    decreases |a|
  {
    var s := a + "\n" + b;
    if a == "" {
      assert s[0] == '\n' && s[1..] == b;
      assert !(pattern <= s);
    } else {
      PrefixInLine(a, b, pattern);
      if pattern <= a {
        assert s[|pattern|..] == a[|pattern|..] + "\n" + b;
        assert forall c <- a[|pattern|..] :: c in a;
        StripLine(a[|pattern|..], b, pattern);
      } else {
        assert s[0] == a[0] && s[1..] == a[1..] + "\n" + b;
        StripLine(a[1..], b, pattern);
        assert [a[0]] + (Strip(a[1..], pattern) + "\n" + Strip(b, pattern)) ==
               ([a[0]] + Strip(a[1..], pattern)) + "\n" + Strip(b, pattern);
      }
    }
  }

  lemma PrefixInLine(a: string, b: string, pattern: string)
    requires '\n' !in pattern
    ensures pattern <= a + "\n" + b <==> pattern <= a
  {
    var s := a + "\n" + b;
    assert s[|a|] == '\n' && forall i | 0 <= i < |a| :: s[i] == a[i];
  }

  lemma {:induction false} StripChars(s: string, pattern: string)
    requires pattern != ""
    ensures forall c <- Strip(s, pattern) :: c in s
    decreases |s|
  {
    if s != "" {
      if pattern <= s {
        StripChars(s[|pattern|..], pattern);
      } else {
        StripChars(s[1..], pattern);
      }
    }
  }

  lemma Associate(a: seq<string>, b: seq<string>, c: seq<string>)
    ensures a + (b + c) == (a + b) + c
  {
  }

  // ----- Trimming -----

  predicate IsSpace(c: char) {
    c in {' ', '\t', '\n', 11 as char, 12 as char, '\r'}
  }

  function TrimLeft(s: string): string {
    if s != [] && IsSpace(s[0]) then TrimLeft(s[1..]) else s
  }

  function TrimRight(s: string): string {
    if s != [] && IsSpace(s[|s| - 1]) then TrimRight(s[..|s| - 1]) else s
  }

  function Trim(s: string): string {
    TrimRight(TrimLeft(s))
  }

  predicate Blank(s: string) {
    forall c <- s :: IsSpace(c)
  }

  /** Trimming removes blanks at both ends, and leaves none there. */
  lemma TrimExact(s: string) returns (left: string, right: string)
    ensures s == left + Trim(s) + right && Blank(left) && Blank(right)
    ensures Trim(s) != "" ==> !IsSpace(Trim(s)[0]) && !IsSpace(Trim(s)[|Trim(s)| - 1])
  {
    left := TrimLeftExact(s);
    right := TrimRightExact(TrimLeft(s));
  }

  lemma {:induction false} TrimLeftExact(s: string) returns (left: string)
    ensures s == left + TrimLeft(s) && Blank(left)
    ensures TrimLeft(s) != "" ==> !IsSpace(TrimLeft(s)[0])
  {
    left := "";
    if s != "" && IsSpace(s[0]) {
      var l := TrimLeftExact(s[1..]);
      left := [s[0]] + l;
    }
  }

  lemma {:induction false} TrimRightExact(s: string) returns (right: string)
    ensures s == TrimRight(s) + right && Blank(right)
    ensures TrimRight(s) != "" ==> TrimRight(s)[0] == s[0] && !IsSpace(TrimRight(s)[|TrimRight(s)| - 1])
  {
    right := "";
    if s != "" && IsSpace(s[|s| - 1]) {
      var r := TrimRightExact(s[..|s| - 1]);
      right := r + [s[|s| - 1]];
    }
  }
}
