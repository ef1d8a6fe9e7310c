/** Lines of a configuration file that leave no trace: blank lines, comments, and entries given again later. */
module ConfigLines {
  import opened Options
  import opened PythonText
  import opened ConfigScalars
  import opened ConfigValues
  import opened ConfigParser

  /** White space up to position `n`. */
  predicate BlankTo(line: string, n: nat)
    requires n <= |line|
  {
    forall i :: 0 <= i < n ==> IsSpace(line[i])
  }

  /** Nothing but white space, or white space and then a hash sign. */
  predicate Ignorable(line: string) {
    BlankTo(line, |line|) || exists n :: 0 <= n < |line| && BlankTo(line, n) && line[n] == '#'
  }

  lemma {:induction false} LStripFrom(line: string) returns (n: nat)
    ensures n <= |line| && BlankTo(line, n) && LStrip(line) == line[n..] && (n < |line| ==> !IsSpace(line[n]))
  {
    n := 0;
    if line != "" && IsSpace(line[0]) {
      var m := LStripFrom(line[1..]);
      n := m + 1;
      assert line[1..][m..] == line[n..];
      forall i | 0 <= i < n
        ensures IsSpace(line[i])
      {
        if i > 0 { assert line[1..][i - 1] == line[i]; }
      }
    }
  }

  lemma TrimmedAway(line: string)
    ensures Strip(line) == "" <==> LStrip(line) == ""
  {
    var rest := LStrip(line);
    if rest != "" && RStrip(rest) == "" {
      RStripKeepsHead(rest);
    }
  }

  lemma {:induction false} RStripKeepsHead(s: string)
    requires s != "" && !IsSpace(s[0])
    ensures RStrip(s) != ""
  {
    if IsSpace(s[|s| - 1]) {
      assert s[..|s| - 1] != "" && s[..|s| - 1][0] == s[0];
      RStripKeepsHead(s[..|s| - 1]);
    }
  }

  /** These are exactly the lines that the parser skips. */
  lemma SkippedExactly(line: string)
    ensures Skipped(line) <==> Ignorable(line)
  {
    var n := LStripFrom(line);
    TrimmedAway(line);
    assert !IsSpace('#');
    hide Strip, LStrip;
    if n < |line| {
      assert LStrip(line)[0] == line[n];
      if Ignorable(line) {
        var m :| 0 <= m < |line| && BlankTo(line, m) && line[m] == '#';
        assert m == n;
      }
    }
  }

  /** Blank lines and comments, at any place and with any indentation, change nothing of what a file is read as. */
  lemma IgnorableLine(a: seq<string>, line: string, b: seq<string>)
    requires (forall i :: 0 <= i < |a| ==> SingleLine(a[i])) && forall i :: 0 <= i < |b| ==> SingleLine(b[i])
    requires Ignorable(line) && SingleLine(line)
    ensures ParseText(Unlines(a + [line] + b)) == ParseText(Unlines(a + b))
  {
    hide *;
    SkippedExactly(line);
    StartIsValid();
    SplitUnlines(a + [line] + b);
    SplitUnlines(a + b);
    RunWithout(Start, a, line, b);
    ReadsRun(Unlines(a + [line] + b));
    ReadsRun(Unlines(a + b));
  }

  lemma ReadsRun(text: string)
    requires Valid(Start)
    ensures var s := Run(Start, SplitLines(text)); s.store[0].MapNode? && ParseText(text) == Tree(s)
  {
    hide Tree, Valid, SplitLines;
  }

  lemma RunWithout(s: State, a: seq<string>, line: string, b: seq<string>)
    requires Valid(s) && Skipped(line)
    ensures Run(s, a + [line] + b) == Run(s, a + b)
  {
    RunConcat(s, a + [line], b);
    RunConcat(s, a, [line]);
    RunConcat(s, a, b);
    hide Valid, Skipped, Run;
    SkippedStays(Run(s, a), line);
  }

  lemma SkippedStays(s: State, line: string)
    requires Valid(s) && Skipped(line)
    ensures Run(s, [line]) == s
  {
    assert [line][1..] == [];
    assert Run(s, [line]) == Run(Step(s, line), []);
  }

  /** A line that gives a scalar to a key. */
  predicate Gives(line: string, indent: nat, key: string, value: string) {
    && !Skipped(line) && LeadingSpaces(line) == indent && Strip(line) != "" && Strip(line)[0] != '-'
    && MatchKeyValue(Strip(line)) == Some((key, value)) && value != ""
  }

  lemma PutTwice(fields: seq<Field>, key: string, first: Ref, second: Ref)
    ensures Put(Put(fields, key, first), key, second) == Put(fields, key, second)
  {
    var i := Find(fields, key);
    var once := Put(fields, key, first);
    var j := Find(once, key);
    assert once[i].key == key;
    assert j == i;
  }

  lemma KeyTwice(s: State, indent: nat, key: string, first: string, second: string)
    requires Valid(s) && TopIndent(s) <= indent && LegalKey(key) && first != "" && second != ""
    ensures TopIndent(StepKey(s, indent, key, first)) <= indent
    ensures StepKey(StepKey(s, indent, key, first), indent, key, second) == StepKey(s, indent, key, second)
  {
    if s.store[Top(s)].MapNode? {
      PutTwice(s.store[Top(s)].fields, key, Plainly(ParseScalar(first)), Plainly(ParseScalar(second)));
      hide Valid, Put, ParseScalar;
    }
  }

  /** Of two lines in a row that give one key a value, the later one counts. */
  lemma LaterCounts(s: State, indent: nat, key: string, first: string, a: string, second: string, b: string)
    requires Valid(s) && Gives(first, indent, key, a) && Gives(second, indent, key, b)
    ensures Step(Step(s, first), second) == Step(s, second)
  {
    MatchedKeyIsLegal(Strip(first));
    var popped := Pop(s, indent);
    assert Step(s, first) == StepKey(popped, indent, key, a);
    assert Step(s, second) == StepKey(popped, indent, key, b);
    KeyTwice(popped, indent, key, a, b);
    hide StepKey, Skipped, Strip, MatchKeyValue, Valid;
    assert Pop(StepKey(popped, indent, key, a), indent) == StepKey(popped, indent, key, a);
  }

  /** A dash in front of a text. */
  predicate Dashed(line: string, indent: nat, text: string) {
    !Skipped(line) && LeadingSpaces(line) == indent && Strip(line) != "" && Strip(line)[0] == '-' && Strip(Strip(line)[1..]) == text
  }

  /** A key right behind a dash is lost: the line is read like a dash alone. */
  lemma ItemKeyLost(s: State, indent: nat, line: string, text: string, bare: string)
    requires Valid(s) && Dashed(line, indent, text) && text != "" && text[|text| - 1] == ':' && Dashed(bare, indent, "")
    ensures Step(s, line) == Step(s, bare)
  {
    hide Skipped, Strip, LeadingSpaces;
  }
}
