/**
 * The string operations the program relies on (Python's str.strip, str.upper,
 * str.lower, str.replace, str.join, str.split and the `in` substring test),
 * restricted to ASCII: whitespace is the set Python's str.isspace accepts
 * among the ASCII characters, and case mapping touches only 'a'..'z' / 'A'..'Z'.
 */
module Text {

  /** Python's str.isspace on an ASCII character: \t \n \v \f \r, the separators 0x1C..0x1F, and space. */
  predicate IsSpace(c: char) {
    c == ' ' || (9 <= c as int <= 13) || (28 <= c as int <= 31)
  }

  predicate AllSpace(s: string) {
    forall k :: 0 <= k < |s| ==> IsSpace(s[k])
  }

  predicate IsLower(c: char) { 'a' <= c <= 'z' }

  predicate IsUpper(c: char) { 'A' <= c <= 'Z' }

  // ---------------------------------------------------------------------------
  // strip()

  /** Drops the leading whitespace: the result is the longest suffix that does not start with a space. */
  function TrimLeft(s: string): (r: string)
    ensures |r| <= |s| && r == s[|s| - |r|..]
    ensures forall k :: 0 <= k < |s| - |r| ==> IsSpace(s[k])
    ensures r == [] || !IsSpace(r[0])
    decreases |s|
  {
    if |s| > 0 && IsSpace(s[0]) then TrimLeft(s[1..]) else s
  }

  /** Drops the trailing whitespace: the result is the longest prefix that does not end with a space. */
  function TrimRight(s: string): (r: string)
    ensures |r| <= |s| && r == s[..|r|]
    ensures forall k :: |r| <= k < |s| ==> IsSpace(s[k])
    ensures r == [] || !IsSpace(r[|r| - 1])
    decreases |s|
  {
    if |s| > 0 && IsSpace(s[|s| - 1]) then TrimRight(s[..|s| - 1]) else s
  }

  /** Python's str.strip() with no argument. */
  function Strip(s: string): (r: string)
    ensures r == [] || (!IsSpace(r[0]) && !IsSpace(r[|r| - 1]))
    ensures r == [] <==> AllSpace(s)
  {
    var l := TrimLeft(s);
    if l == [] then TrimRight(l)
    else
      assert l[0] == s[|s| - |l|] && !IsSpace(l[0]);
      TrimRight(l)
  }

  /** What strip() keeps is a contiguous piece of its argument, and everything around it is whitespace. */
  lemma StripSpan(s: string) returns (i: nat, j: nat)
    ensures i <= j <= |s| && Strip(s) == s[i..j]
    ensures forall k :: 0 <= k < i ==> IsSpace(s[k])
    ensures forall k :: j <= k < |s| ==> IsSpace(s[k])
  {
    var l := TrimLeft(s);
    var r := TrimRight(l);
    assert Strip(s) == r;
    i := |s| - |l|;
    j := i + |r|;
    SpanOfTrims(s, l, r);
  }

  lemma SpanOfTrims(s: string, l: string, r: string)
    requires |l| <= |s| && l == s[|s| - |l|..]
    requires |r| <= |l| && r == l[..|r|] && forall k :: |r| <= k < |l| ==> IsSpace(l[k])
    ensures r == s[|s| - |l|..|s| - |l| + |r|]
    ensures forall k :: |s| - |l| + |r| <= k < |s| ==> IsSpace(s[k])
  {
    var i := |s| - |l|;
    forall k | i + |r| <= k < |s| ensures IsSpace(s[k]) {
      assert s[k] == l[k - i];
    }
  }

  /** strip() leaves a string without surrounding whitespace unchanged; in particular it is idempotent. */
  lemma StripOfStripped(s: string)
    requires s == [] || (!IsSpace(s[0]) && !IsSpace(s[|s| - 1]))
    ensures Strip(s) == s
  {
  }

  // ---------------------------------------------------------------------------
  // upper() and lower()

  function UpperChar(c: char): (d: char)
    ensures !IsLower(d)
    ensures !IsLower(c) ==> d == c
  {
    if IsLower(c) then (c as int - 32) as char else c
  }

  function LowerChar(c: char): (d: char)
    ensures !IsUpper(d)
    ensures !IsUpper(c) ==> d == c
  {
    if IsUpper(c) then (c as int + 32) as char else c
  }

  /** Python's str.upper() on ASCII: every letter 'a'..'z' is mapped to its capital, nothing else changes. */
  function Upper(s: string): (r: string)
    ensures |r| == |s|
    ensures forall k :: 0 <= k < |s| ==> r[k] == UpperChar(s[k])
  {
    if s == [] then [] else [UpperChar(s[0])] + Upper(s[1..])
  }

  /** Python's str.lower() on ASCII. */
  function Lower(s: string): (r: string)
    ensures |r| == |s|
    ensures forall k :: 0 <= k < |s| ==> r[k] == LowerChar(s[k])
  {
    if s == [] then [] else [LowerChar(s[0])] + Lower(s[1..])
  }

  predicate NoLower(s: string) {
    forall k :: 0 <= k < |s| ==> !IsLower(s[k])
  }

  /** Upper-casing a string that has no lower-case letter changes nothing. */
  lemma UpperOfUpper(s: string)
    requires NoLower(s)
    ensures Upper(s) == s
  {
    assert forall k :: 0 <= k < |s| ==> Upper(s)[k] == s[k];
  }

  /** Upper-casing leaves whitespace where it was. */
  lemma UpperKeepsSpaces(s: string)
    ensures AllSpace(Upper(s)) <==> AllSpace(s)
  {
    assert forall k :: 0 <= k < |s| ==> (IsSpace(Upper(s)[k]) <==> IsSpace(s[k]));
  }

  /** Stripping an upper-cased text keeps it free of lower-case letters. */
  lemma StripKeepsNoLower(s: string)
    requires NoLower(s)
    ensures NoLower(Strip(s))
  {
    var i, j := StripSpan(s);
    assert forall k :: 0 <= k < j - i ==> s[i..j][k] == s[i + k];
  }

  // ---------------------------------------------------------------------------
  // The `in` substring test

  /** `p in s` on Python strings: p occurs in s as a contiguous piece. */
  predicate Contains(s: string, p: string)
    ensures Contains(s, p) ==> |p| <= |s|
    decreases |s|
  {
    p <= s || (|s| > 0 && Contains(s[1..], p))
  }

  /** Contains agrees with the positional definition of an occurrence. */
  lemma {:induction false} ContainsAt(s: string, p: string, i: nat)
    requires i + |p| <= |s| && s[i..i + |p|] == p
    ensures Contains(s, p)
    decreases i
  {
    if i == 0 {
      assert p <= s;
    } else {
      assert s[1..][i - 1..i - 1 + |p|] == s[i..i + |p|];
      ContainsAt(s[1..], p, i - 1);
    }
  }

  /** Where a contained pattern occurs. */
  lemma {:induction false} ContainsWitness(s: string, p: string) returns (i: nat)
    requires Contains(s, p)
    ensures i + |p| <= |s| && s[i..i + |p|] == p
    decreases |s|
  {
    if p <= s {
      i := 0;
    } else {
      var j := ContainsWitness(s[1..], p);
      assert s[1..][j..j + |p|] == s[j + 1..j + 1 + |p|];
      i := j + 1;
    }
  }

  /** An occurrence in a piece of s is an occurrence in s. */
  lemma {:induction false} ContainsInSlice(s: string, p: string, i: nat, j: nat)
    requires i <= j <= |s|
    ensures Contains(s[i..j], p) ==> Contains(s, p)
    decreases j - i
  {
    var t := s[i..j];
    if p <= t {
      assert s[i..i + |p|] == p;
      ContainsAt(s, p, i);
    } else if Contains(t, p) {
      assert t[1..] == s[i + 1..j];
      ContainsInSlice(s, p, i + 1, j);
    }
  }

  /** A string written out between two others occurs in the result. */
  lemma ContainsMiddle(a: string, p: string, b: string)
    ensures Contains(a + p + b, p)
  {
    var s := a + p + b;
    assert s[|a|..|a| + |p|] == p;
    ContainsAt(s, p, |a|);
  }

  /** strip() cannot create an occurrence. */
  lemma StripKeepsAbsence(s: string, p: string)
    requires !Contains(s, p)
    ensures !Contains(Strip(s), p)
  {
    var i, j := StripSpan(s);
    ContainsInSlice(s, p, i, j);
  }

  // ---------------------------------------------------------------------------
  // replace()

  /**
   * Python's str.replace(pat, repl): scanning from the left, every occurrence of
   * pat that does not overlap an earlier replaced one is replaced by `repl`.
   */
  function Replace(s: string, pat: string, repl: string): string
    requires |pat| > 0
    decreases |s|
  {
    if s == [] then []
    else if pat <= s then repl + Replace(s[|pat|..], pat, repl)
    else [s[0]] + Replace(s[1..], pat, repl)
  }

  /** After every "**" is removed, no "**" is left (a removal cannot join two stars). */
  lemma {:induction false} RemovingDoubleStarLeavesNone(s: string)
    ensures !Contains(Replace(s, "**", ""), "**")
    decreases |s|
  {
    if s == [] {
    } else if "**" <= s {
      RemovingDoubleStarLeavesNone(s[2..]);
      assert Replace(s, "**", "") == Replace(s[2..], "**", "");
    } else {
      RemovingDoubleStarLeavesNone(s[1..]);
      var rest := Replace(s[1..], "**", "");
      var r := [s[0]] + rest;
      assert r == Replace(s, "**", "");
      assert r[1..] == rest;
      if s[0] == '*' && |s| > 1 {
        // s starts with '*' but not with "**", so the next kept character is s[1], not a star
        assert s[1] != '*';
        assert rest[0] == s[1];
      }
    }
  }

  /** Rewriting "* " to "- " in a text without "**" leaves neither "**" nor "* ". */
  lemma {:induction false} RewritingStarSpaceLeavesNone(s: string)
    requires !Contains(s, "**")
    ensures !Contains(Replace(s, "* ", "- "), "**")
    ensures !Contains(Replace(s, "* ", "- "), "* ")
    decreases |s|
  {
    if s == [] {
    } else if "* " <= s {
      assert s[2..] == s[2..|s|];
      ContainsInSlice(s, "**", 2, |s|);
      RewritingStarSpaceLeavesNone(s[2..]);
      var rest := Replace(s[2..], "* ", "- ");
      var r := "- " + rest;
      assert r == Replace(s, "* ", "- ");
      assert r[0] == '-' && r[1..][0] == ' ' && r[1..][1..] == rest;
      assert !Contains(r[1..], "**") && !Contains(r[1..], "* ");
    } else {
      assert s[1..] == s[1..|s|];
      ContainsInSlice(s, "**", 1, |s|);
      RewritingStarSpaceLeavesNone(s[1..]);
      var rest := Replace(s[1..], "* ", "- ");
      var r := [s[0]] + rest;
      assert r == Replace(s, "* ", "- ");
      assert r[1..] == rest;
      if s[0] == '*' && |s| > 1 {
        // a star kept from s is followed by what s[1] becomes, and s[1] is neither a star nor a space
        assert s[1] != '*' && s[1] != ' ';
        assert rest[0] == s[1];
      }
    }
  }

  // ---------------------------------------------------------------------------
  // split('\n') and join

  /**
   * The position of the first `c` in s, or |s| when there is none
   * (the split point of Python's s.split(c, 1)).
   */
  function IndexOf(s: string, c: char): (i: nat)
    ensures i <= |s|
    ensures i < |s| ==> s[i] == c
    ensures forall k :: 0 <= k < i ==> s[k] != c
    decreases |s|
  {
    if s == [] then 0 else if s[0] == c then 0 else 1 + IndexOf(s[1..], c)
  }

  /** The first c in a text whose prefix holds none is the one right after that prefix. */
  lemma IndexOfAfter(a: string, c: char, b: string)
    requires c !in a
    ensures IndexOf(a + [c] + b, c) == |a|
  {
    var s := a + [c] + b;
    assert s[|a|] == c;
    assert forall k :: 0 <= k < |a| ==> s[k] == a[k];
  }

  /** Python's s.split('\n', 1): one piece when s has no newline, else the text before and after the first one. */
  function SplitFirstLine(s: string): (r: seq<string>)
    ensures 1 <= |r| <= 2
    ensures |r| == 2 <==> '\n' in s
    ensures |r| == 1 ==> r[0] == s
    ensures |r| == 2 ==> s == r[0] + "\n" + r[1] && '\n' !in r[0]
  {
    var i := IndexOf(s, '\n');
    if i == |s| then [s]
    else
      assert s == s[..i] + "\n" + s[i + 1..];
      [s[..i], s[i + 1..]]
  }

  /** Python's sep.join(parts). */
  function Join(parts: seq<string>, sep: string): string
    decreases |parts|
  {
    if parts == [] then []
    else if |parts| == 1 then parts[0]
    else parts[0] + sep + Join(parts[1..], sep)
  }

  /** Python's s.split('\n'): the pieces between newlines, so never empty. */
  function Lines(s: string): (r: seq<string>)
    ensures |r| >= 1
    decreases |s|
  {
    if s == [] then [[]]
    else if s[0] == '\n' then [[]] + Lines(s[1..])
    else
      var rest := Lines(s[1..]);
      [[s[0]] + rest[0]] + rest[1..]
  }

  /** Text without a newline only lengthens the first line. */
  lemma {:induction false} LinesOfPrefix(a: string, t: string)
    requires '\n' !in a
    ensures Lines(a + t) == [a + Lines(t)[0]] + Lines(t)[1..]
    decreases |a|
  {
    if a == [] {
      assert a + t == t && a + Lines(t)[0] == Lines(t)[0];
      assert [a + Lines(t)[0]] + Lines(t)[1..] == Lines(t);
    } else {
      assert (a + t)[0] == a[0] && a[0] != '\n';
      assert (a + t)[1..] == a[1..] + t;
      LinesOfPrefix(a[1..], t);
      var rest := Lines(a[1..] + t);
      assert Lines(a + t) == [[a[0]] + rest[0]] + rest[1..];
      assert rest[0] == a[1..] + Lines(t)[0] && rest[1..] == Lines(t)[1..];
      assert [a[0]] + (a[1..] + Lines(t)[0]) == a + Lines(t)[0];
    }
  }

  /** A newline between two texts puts their lines one after the other. */
  lemma {:induction false} LinesOfNewline(a: string, b: string)
    ensures Lines(a + "\n" + b) == Lines(a) + Lines(b)
    decreases |a|
  {
    var s := a + "\n" + b;
    if a == [] {
      assert s == "\n" + b && s[0] == '\n' && s[1..] == b;
    } else {
      assert s[0] == a[0] && s[1..] == a[1..] + "\n" + b;
      LinesOfNewline(a[1..], b);
      var la := Lines(a[1..]);
      if a[0] == '\n' {
        assert Lines(s) == [[]] + (la + Lines(b));
      } else {
        var r := la + Lines(b);
        assert r[0] == la[0] && r[1..] == la[1..] + Lines(b);
        assert Lines(s) == [[a[0]] + r[0]] + r[1..];
      }
    }
  }

  /** Joining lines that contain no newline and splitting again gives the lines back. */
  lemma {:induction false} LinesOfJoin(parts: seq<string>)
    requires |parts| >= 1
    requires forall k :: 0 <= k < |parts| ==> '\n' !in parts[k]
    ensures Lines(Join(parts, "\n")) == parts
    decreases |parts|
  {
    if |parts| == 1 {
      LinesOfPrefix(parts[0], []);
      assert parts[0] + [] == parts[0];
    } else {
      LinesOfJoin(parts[1..]);
      LinesOfNewline(parts[0], Join(parts[1..], "\n"));
      LinesOfPrefix(parts[0], []);
      assert parts[0] + [] == parts[0];
      assert parts == [parts[0]] + parts[1..];
    }
  }

  /** Text without a newline is one line. */
  lemma LinesOfPlain(a: string)
    requires '\n' !in a
    ensures Lines(a) == [a]
  {
    LinesOfPrefix(a, []);
    assert a + [] == a;
  }

  /** Three newline-free texts joined by newlines split back into those three. */
  lemma LinesOfThree(a: string, b: string, c: string)
    requires '\n' !in a && '\n' !in b && '\n' !in c
    ensures Lines(a + "\n" + b + "\n" + c) == [a, b, c]
  {
    LinesOfNewline(a + "\n" + b, c);
    LinesOfNewline(a, b);
    LinesOfPlain(a);
    LinesOfPlain(b);
    LinesOfPlain(c);
  }
}
