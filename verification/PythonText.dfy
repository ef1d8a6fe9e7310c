/** The parts of Python's `str` that the configuration file format leans on. */
module PythonText {

  /** `str.isspace` for one character, which is also the regular expression class `\s`. */
  predicate IsSpace(c: char) {
    var n := c as int;
    || 0x09 <= n <= 0x0D || 0x1C <= n <= 0x20 || n == 0x85 || n == 0xA0 || n == 0x1680
    || 0x2000 <= n <= 0x200A || n == 0x2028 || n == 0x2029 || n == 0x202F || n == 0x205F || n == 0x3000
  }

  /** The characters at which `str.splitlines` ends a line; all of them are white space. */
  predicate IsLineBreak(c: char) {
    var n := c as int;
    0x0A <= n <= 0x0D || 0x1C <= n <= 0x1E || n == 0x85 || n == 0x2028 || n == 0x2029
  }

  predicate SingleLine(s: string) {
    forall i :: 0 <= i < |s| ==> !IsLineBreak(s[i])
  }

  function LStrip(s: string): (r: string)
    ensures |r| <= |s|
    ensures SingleLine(s) ==> SingleLine(r)
    ensures r != "" ==> !IsSpace(r[0])
  {
    if s != "" && IsSpace(s[0]) then LStrip(s[1..]) else s
  }

  function RStrip(s: string): (r: string)
    ensures r <= s
    ensures r != "" ==> !IsSpace(r[|r| - 1])
  {
    if s != "" && IsSpace(s[|s| - 1]) then RStrip(s[..|s| - 1]) else s
  }

  function Strip(s: string): (r: string)
    ensures SingleLine(s) ==> SingleLine(r)
  {
    RStrip(LStrip(s))
  }

  /** `s.rstrip("\n")`. */
  function RStripNewlines(s: string): string {
    if s != "" && s[|s| - 1] == '\n' then RStripNewlines(s[..|s| - 1]) else s
  }

  function Spaces(n: nat): (s: string)
    ensures |s| == n && forall i :: 0 <= i < n ==> s[i] == ' '
  {
    if n == 0 then "" else " " + Spaces(n - 1)
  }

  /** `len(s) - len(s.lstrip(" "))`. */
  function LeadingSpaces(s: string): nat {
    if s != "" && s[0] == ' ' then 1 + LeadingSpaces(s[1..]) else 0
  }

  /** Number of characters before the first line break. */
  function LineLength(s: string): (n: nat)
    ensures n <= |s|
    ensures SingleLine(s[..n])
    ensures n < |s| ==> IsLineBreak(s[n])
  {
    if s == "" || IsLineBreak(s[0]) then 0 else
    var m := LineLength(s[1..]);
    assert s[..1 + m] == [s[0]] + s[1..][..m];
    1 + m
  }

  /** `str.splitlines`: a trailing break opens no further line, and "\r\n" is one break. */
  function SplitLines(s: string): (lines: seq<string>)
    ensures forall i :: 0 <= i < |lines| ==> SingleLine(lines[i])
    decreases |s|
  {
    if s == "" then []
    else
      var n := LineLength(s);
      if n == |s| then [s]
      else
        var width := if s[n] == '\r' && n + 1 < |s| && s[n + 1] == '\n' then 2 else 1;
        [s[..n]] + SplitLines(s[n + width..])
  }

  /** Every line followed by a newline. */
  function Unlines(lines: seq<string>): string {
    if lines == [] then "" else lines[0] + "\n" + Unlines(lines[1..])
  }

  /** `"\n".join(lines)`. */
  function JoinLines(lines: seq<string>): string {
    if lines == [] then "" else if |lines| == 1 then lines[0] else lines[0] + "\n" + JoinLines(lines[1..])
  }

  /** `str.split()` without arguments. */
  function Words(s: string): seq<string>
    decreases |s|
  {
    var t := LStrip(s);
    if t == "" then [] else
    var n := WordLength(t);
    [t[..n]] + Words(t[n..])
  }

  function WordLength(s: string): (n: nat)
    ensures n <= |s| && (s != "" && !IsSpace(s[0]) ==> n > 0)
  {
    if s == "" || IsSpace(s[0]) then 0 else 1 + WordLength(s[1..])
  }

  /** `s.replace(",", " ")`. */
  function CommasToSpaces(s: string): string {
    seq(|s|, i requires 0 <= i < |s| => if s[i] == ',' then ' ' else s[i])
  }

  /**
   * The part of `str.lower` that can produce an ASCII letter on its own: A to Z and the Kelvin
   * sign. The parser only compares the result with ASCII words.
   */
  function LowerChar(c: char): char {
    if 'A' <= c <= 'Z' then (c as int + 32) as char else if c == '\U{212A}' then 'k' else c
  }

  function Lower(s: string): string {
    seq(|s|, i requires 0 <= i < |s| => LowerChar(s[i]))
  }

  // ---------------------------------------------------------------- order of strings

  /** Python compares strings code point by code point. */
  predicate StringLessEq(a: string, b: string) {
    a == "" || (b != "" && (a[0] < b[0] || (a[0] == b[0] && StringLessEq(a[1..], b[1..]))))
  }

  lemma {:induction false} StringOrderTotal(a: string, b: string)
    ensures StringLessEq(a, b) || StringLessEq(b, a)
    ensures StringLessEq(a, b) && StringLessEq(b, a) ==> a == b
  {
    if a != "" && b != "" {
      StringOrderTotal(a[1..], b[1..]);
      assert a == [a[0]] + a[1..] && b == [b[0]] + b[1..];
    }
  }

  lemma {:induction false} StringOrderReflexive(a: string)
    ensures StringLessEq(a, a)
  {
    if a != "" {
      StringOrderReflexive(a[1..]);
    }
  }

  lemma {:induction false} StringOrderTransitive(a: string, b: string, c: string)
    requires StringLessEq(a, b) && StringLessEq(b, c)
    ensures StringLessEq(a, c)
  {
    if a != "" && b != "" && c != "" && a[0] == b[0] == c[0] {
      StringOrderTransitive(a[1..], b[1..], c[1..]);
    }
  }

  /** The first difference decides: a text comes before another when it is a prefix of it or has the smaller character there. */
  lemma {:induction false} StringOrderExactly(a: string, b: string)
    ensures StringLessEq(a, b)
       <==> a <= b || exists i :: 0 <= i < |a| && i < |b| && a[..i] == b[..i] && a[i] < b[i]
  {
    if a != "" && b != "" {
      var s, t := a[1..], b[1..];
      StringOrderExactly(s, t);
      forall i | 0 <= i < |s| && i < |t| && s[..i] == t[..i] && s[i] < t[i] && a[0] == b[0]
        ensures a[..i + 1] == b[..i + 1] && a[i + 1] < b[i + 1]
      {
        assert a[..i + 1] == [a[0]] + s[..i] && b[..i + 1] == [b[0]] + t[..i];
      }
      forall i | 0 < i < |a| && i < |b| && a[..i] == b[..i] && a[i] < b[i]
        ensures a[0] == b[0] && s[..i - 1] == t[..i - 1] && s[i - 1] < t[i - 1]
      {
        assert a[..i][0] == b[..i][0];
        assert s[..i - 1] == a[..i][1..] && t[..i - 1] == b[..i][1..];
      }
      if a[0] < b[0] { assert a[..0] == b[..0]; }
      if a <= b { assert a == b[..|a|]; assert s == t[..|s|]; }
      if s <= t && a[0] == b[0] { assert a == [a[0]] + s && b == [b[0]] + t; }
    }
  }

  // ---------------------------------------------------------------- stripping

  lemma {:induction false} LStripSpaces(n: nat, s: string)
    requires s != "" && !IsSpace(s[0])
    ensures LStrip(Spaces(n) + s) == s
    ensures LeadingSpaces(Spaces(n) + s) == n
  {
    if n == 0 {
      assert Spaces(n) + s == s;
    } else {
      assert (Spaces(n) + s)[1..] == Spaces(n - 1) + s;
      LStripSpaces(n - 1, s);
    }
  }

  lemma {:induction false} RStripAfter(head: string, tail: string)
    requires head != "" && !IsSpace(head[|head| - 1])
    ensures RStrip(head + tail) == head + RStrip(tail)
  {
    if tail == "" {
      assert head + tail == head;
    } else if IsSpace(tail[|tail| - 1]) {
      assert (head + tail)[..|head + tail| - 1] == head + tail[..|tail| - 1];
      RStripAfter(head, tail[..|tail| - 1]);
    }
  }

  lemma {:induction false} LStripSnoc(s: string, c: char)
    ensures LStrip(s + [c]) == if LStrip(s) == "" then LStrip([c]) else LStrip(s) + [c]
  {
    if s == "" {
      assert s + [c] == [c];
    } else if IsSpace(s[0]) {
      assert (s + [c])[1..] == s[1..] + [c];
      LStripSnoc(s[1..], c);
    }
  }

  /** Trimming the right end first does not change the result of trimming both. */
  lemma {:induction false} StripRStrip(s: string)
    ensures Strip(RStrip(s)) == Strip(s)
  {
    if s != "" && IsSpace(s[|s| - 1]) {
      var front := s[..|s| - 1];
      StripRStrip(front);
      assert s == front + [s[|s| - 1]];
      LStripSnoc(front, s[|s| - 1]);
      if LStrip(front) != "" {
        assert (LStrip(front) + [s[|s| - 1]])[..|LStrip(front)|] == LStrip(front);
      }
    }
  }

  /** Trimmed text is left alone by trimming, and nothing else is. */
  lemma StripIdentity(s: string)
    ensures Strip(s) == s <==> s == "" || (!IsSpace(s[0]) && !IsSpace(s[|s| - 1]))
  {
    if Strip(s) == s && s != "" {
      assert |RStrip(LStrip(s))| <= |LStrip(s)| <= |s|;
      assert LStrip(s) == s;
    }
  }

  // ---------------------------------------------------------------- lines

  lemma {:induction false} LineLengthAt(line: string, rest: string)
    requires SingleLine(line)
    ensures LineLength(line + "\n" + rest) == |line|
  {
    if line == "" {
      assert (line + "\n" + rest)[0] == '\n';
    } else {
      assert (line + "\n" + rest)[1..] == line[1..] + "\n" + rest;
      LineLengthAt(line[1..], rest);
    }
  }

  lemma {:induction false} SplitUnlines(lines: seq<string>)
    requires forall i :: 0 <= i < |lines| ==> SingleLine(lines[i])
    ensures SplitLines(Unlines(lines)) == lines
  {
    if lines != [] {
      var rest := Unlines(lines[1..]);
      LineLengthAt(lines[0], rest);
      var s := lines[0] + "\n" + rest;
      assert s[|lines[0]|] == '\n';
      assert s[..|lines[0]|] == lines[0] && s[|lines[0]| + 1..] == rest;
      SplitUnlines(lines[1..]);
    }
  }

  lemma {:induction false} UnlinesConcat(a: seq<string>, b: seq<string>)
    ensures Unlines(a + b) == Unlines(a) + Unlines(b)
  {
    if a == [] {
      assert a + b == b;
    } else {
      assert (a + b)[1..] == a[1..] + b;
      UnlinesConcat(a[1..], b);
    }
  }

  lemma {:induction false} JoinUnlines(lines: seq<string>)
    requires lines != []
    ensures JoinLines(lines) + "\n" == Unlines(lines)
  {
    if |lines| > 1 {
      JoinUnlines(lines[1..]);
    } else {
      assert lines[1..] == [];
    }
  }
}
