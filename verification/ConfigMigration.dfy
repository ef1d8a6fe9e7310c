/**
 * A migrated configuration is saved with a two-line message. Loading it again cuts the message
 * after its first line and detaches what is printed after it.
 */
module ConfigMigration {
  import opened Options
  import opened PythonText
  import opened ConfigScalars
  import opened ConfigValues
  import opened ConfigPrinter
  import opened ConfigParser
  import opened ConfigInvariant
  import opened ConfigRoundTrip
  import opened UserConfigs
  import opened UserConfigRoundTrip

  /** The migration writes one of its own messages. */
  predicate WritesMessage(h: Harnesses) {
    HadRemoved(h) && (RemovedDefault(h) || "joy" in h.enabled || h.migrationMessage == None)
  }

  function MessageStart(h: Harnesses): string {
    if RemovedDefault(h) && h.default.value != "joy" then MESSAGE_START_FAKE
    else if RemovedDefault(h) || "joy" in h.enabled then MESSAGE_START_JOY
    else MESSAGE_START_FAKE
  }

  lemma MessageWritten(c: UserConfig)
    requires HadRemoved(c.harnesses)
    ensures Migrate(c).0.harnesses.migrationMessage
         == if WritesMessage(c.harnesses) then Some(MigrationMessage(MessageStart(c.harnesses)))
            else c.harnesses.migrationMessage
  {
  }

  lemma MigratedIsSafe(c: UserConfig)
    requires SafeConfig(c) && HadRemoved(c.harnesses)
    ensures SafeButMessage(Migrate(c).0.harnesses) && !HadRemoved(Migrate(c).0.harnesses)
  {
    var h, m := c.harnesses, Migrate(c).0.harnesses;
    forall i | 0 <= i < |m.enabled|
      ensures PlainItem(ScalarItem(Str(m.enabled[i])))
    {
      assert m.enabled[i] in WithoutRemoved(h.enabled);
      var k :| 0 <= k < |h.enabled| && h.enabled[k] == m.enabled[i];
    }
  }

  lemma StartSingleLine(start: string)
    requires start == MESSAGE_START_JOY || start == MESSAGE_START_FAKE
    ensures SingleLine(start) && |start| > 50 && start[0] == 'T' && start[|start| - 1] == '.'
  {
    ThePreviously();
    Selected();
    HasBeen();
    JoyHarness();
    FakeHarness();
    hide SingleLine;
    var middle := if start == MESSAGE_START_JOY then " “joy” harness" else " “fake” harness";
    assert start == "The previously" + " selected" + middle + " has been" + " removed.";
    Joined("The previously", " selected");
    Joined("The previously" + " selected", middle);
    Joined("The previously" + " selected" + middle, " has been");
    Joined("The previously" + " selected" + middle + " has been", " removed.");
  }

  lemma Joined(a: string, b: string)
    requires SingleLine(a) && SingleLine(b)
    ensures SingleLine(a + b)
  {
  }

  lemma ThePreviously()
    ensures SingleLine("The previously") && |"The previously"| == 14 && "The previously"[0] == 'T'
  {
  }

  lemma Selected()
    ensures SingleLine(" selected") && |" selected"| == 9
  {
  }

  lemma HasBeen()
    ensures SingleLine(" has been") && SingleLine(" removed.") && |" has been"| == 9
    ensures |" removed."| == 9 && " removed."[8] == '.'
  {
  }

  lemma JoyHarness()
    ensures SingleLine(" “joy” harness") && |" “joy” harness"| == 14
  {
  }

  lemma FakeHarness()
    ensures SingleLine(" “fake” harness") && |" “fake” harness"| == 15
  {
  }

  lemma StartIsSafe(start: string)
    requires start == MESSAGE_START_JOY || start == MESSAGE_START_FAKE
    ensures SafeText(start)
  {
    StartSingleLine(start);
    assert |Lower(start)| == |start|;
    assert |"null"| == 4 && |"~"| == 1 && |"true"| == 4 && |"false"| == 5;
    assert DigitValue('T').None?;
  }

  lemma EndSingleLine()
    ensures SingleLine(MESSAGE_END) && |MESSAGE_END| > 40
    ensures MESSAGE_END[0] == 'C' && MESSAGE_END[6] == ' ' && MESSAGE_END[|MESSAGE_END| - 1] == '.'
    ensures forall i :: 0 <= i <= 6 ==> MESSAGE_END[i] != ':'
  {
  }

  /** The second line of the message is neither an entry nor an item. */
  lemma EndLine(line: string)
    requires line == MESSAGE_END
    ensures !Skipped(line) && LeadingSpaces(line) == 0 && Strip(line) == line && line[0] != '-'
    ensures MatchKeyValue(line) == None
  {
    EndSingleLine();
    StripIdentity(line);
    var n := KeyPrefix(line);
    assert !IsKeyChar(line[6]);
    assert n <= 6;
  }

  // ---------------------------------------------------------------- the printed lines

  lemma {:induction false} PartsConcat(a: seq<Entry>, b: seq<Entry>, indent: nat)
    ensures EntriesParts(a + b, indent) == EntriesParts(a, indent) + EntriesParts(b, indent)
    ensures DumpLines(a + b, indent) == DumpLines(a, indent) + DumpLines(b, indent)
  {
    if a == [] {
      assert a + b == b;
    } else {
      assert (a + b)[0] == a[0] && (a + b)[1..] == a[1..] + b;
      hide EntryParts, EntryLines;
      PartsConcat(a[1..], b, indent);
    }
  }

  /** The entries of `harnesses` up to the message, with the message cut after its first line. */
  function CutHead(h: Harnesses, start: string): seq<Entry> {
    HarnessesHead(h) + [Entry("migration_message", Leaf(Str(start)))]
  }

  /** The lines between the line of `harnesses` and the line of `delivery`. */
  function InnerLines(h: Harnesses, start: string): seq<string> {
    DumpLines(CutHead(h, start), 1) + ([MESSAGE_END] + DumpLines(HarnessesTail(h), 1))
  }

  lemma CutHeadPrintable(h: Harnesses, start: string)
    requires SafeButMessage(h) && SafeText(start)
    ensures Printable(CutHead(h, start))
  {
    HeadPrintable(h);
    HarnessesNames();
    var es := HarnessesHead(h);
    assert "migration_message"[0] == 'm' && es[0].key[0] == 'e' && es[1].key[0] == 'd' && es[2].key[0] == 's';
  }

  lemma TwoLines(first: string, second: string, i: nat)
    requires SingleLine(first) && SingleLine(second) && second != "" && i < |first| && !IsSpace(first[i])
    ensures Spells([first + "\n" + second], [first] + [second])
  {
    var whole := first + "\n" + second;
    assert whole[|whole| - 1] == second[|second| - 1] && !IsLineBreak(second[|second| - 1]);
    NonSpaceSurvives(whole, i);
    assert [first] + [second] == [first, second];
    assert [whole][1..] == [] && [first, second][1..] == [second] && [second][1..] == [];
    assert whole + "\n" + "" == first + "\n" + (second + "\n" + "");
  }

  lemma MessageSpells(start: string)
    requires SafeText(start)
    ensures var e := [Entry("migration_message", Leaf(Str(MigrationMessage(start))))];
            var cut := [Entry("migration_message", Leaf(Str(start)))];
            Spells(EntriesParts(e, 1), DumpLines(cut, 1) + [MESSAGE_END])
  {
    EndSingleLine();
    var first := FirstLine(start);
    FirstLineSingle(start);
    hide SafeText, FirstLine;
    TwoLines(first, MESSAGE_END, 2);
    hide Spells;
    var e := Entry("migration_message", Leaf(Str(MigrationMessage(start))));
    var cut := Entry("migration_message", Leaf(Str(start)));
    assert EntriesParts([e], 1) == [first + "\n" + MESSAGE_END] by { assert [e][1..] == []; }
    assert DumpLines([cut], 1) == [first] by { assert [cut][1..] == []; }
  }

  function FirstLine(start: string): string {
    Pad(1) + "migration_message" + ": " + start
  }

  lemma FirstLineSingle(start: string)
    requires SafeText(start)
    ensures SingleLine(FirstLine(start)) && |FirstLine(start)| > 2 && !IsSpace(FirstLine(start)[2])
    ensures Pad(1) + "migration_message" + ": " + start == FirstLine(start)
    ensures Pad(1) + "migration_message" + ": " + MigrationMessage(start) == FirstLine(start) + "\n" + MESSAGE_END
  {
    PrefixSingle();
    assert SingleLine(start);
    hide SafeText, SingleLine, Pad;
    Joined(Pad(1) + "migration_message" + ": ", start);
    assert FirstLine(start)[2] == (Pad(1) + "migration_message" + ": ")[2];
  }

  lemma PrefixSingle()
    ensures var prefix := Pad(1) + "migration_message" + ": ";
            SingleLine(prefix) && |prefix| > 2 && !IsSpace(prefix[2])
  {
    assert (Pad(1) + "migration_message" + ": ")[2] == "migration_message"[0];
  }

  lemma InnerSpells(h: Harnesses, start: string)
    requires SafeButMessage(h) && SafeText(start) && h.migrationMessage == Some(MigrationMessage(start))
    ensures Spells(EntriesParts(HarnessesDict(h), 1), InnerLines(h, start))
  {
    var head, tail := HarnessesHead(h), HarnessesTail(h);
    var message := [Entry("migration_message", Leaf(Str(MigrationMessage(start))))];
    var cut := [Entry("migration_message", Leaf(Str(start)))];
    assert HarnessesDict(h) == head + message + tail;
    HeadPrintable(h);
    TailPrintable(h);
    MessageSpells(start);
    hide EntriesParts, DumpLines, Spells, HarnessesHead, HarnessesTail, SafeButMessage, SafeText, Printable;
    DumpSpells(head, 1);
    DumpSpells(tail, 1);
    PartsConcat(head, message, 1);
    PartsConcat(head + message, tail, 1);
    PartsConcat(head, cut, 1);
    SpellsConcat(EntriesParts(head, 1), DumpLines(head, 1), EntriesParts(message, 1), DumpLines(cut, 1) + [MESSAGE_END]);
    SpellsConcat(EntriesParts(head + message, 1), DumpLines(head, 1) + (DumpLines(cut, 1) + [MESSAGE_END]),
                 EntriesParts(tail, 1), DumpLines(tail, 1));
    Shuffle(DumpLines(head, 1), DumpLines(cut, 1), [MESSAGE_END], DumpLines(tail, 1));
  }

  lemma Shuffle(a: seq<string>, b: seq<string>, c: seq<string>, d: seq<string>)
    ensures a + (b + c) + d == a + b + (c + d)
  {
  }

  /** All lines of the saved file. */
  function SavedLines(c: UserConfig, start: string): seq<string> {
    DumpLines([Entry("metrics", Mapping(MetricsDict(c.metrics)))], 0)
    + ([Pad(0) + "harnesses" + ":"] + InnerLines(c.harnesses, start))
    + DumpLines([Entry("delivery", Mapping(DeliveryDict(c.delivery)))], 0)
  }

  lemma FixedLines()
    ensures AllSingleLine([Pad(0) + "harnesses" + ":"]) && AllSingleLine([MESSAGE_END])
    ensures SingleLine(Pad(0) + "harnesses" + ":")
  {
    EndSingleLine();
    assert SingleLine(Pad(0) + "harnesses" + ":");
  }

  lemma HarnessesSpell(h: Harnesses, start: string)
    requires SafeButMessage(h) && SafeText(start) && h.migrationMessage == Some(MigrationMessage(start))
    ensures Spells(EntriesParts([Entry("harnesses", Mapping(HarnessesDict(h)))], 0),
                   [Pad(0) + "harnesses" + ":"] + InnerLines(h, start))
  {
    var es, line := HarnessesDict(h), Pad(0) + "harnesses" + ":";
    var e := Entry("harnesses", Mapping(es));
    FixedLines();
    assert line[0] == 'h';
    SectionParts(e.key, es);
    hide *;
    InnerSpells(h, start);
    OneLineSpells(line, 0);
    NestedSpells(EntriesParts(es, 1), InnerLines(h, start));
    SpellsConcat([line], [line], NestedParts(JoinLines(EntriesParts(es, 1)) + "\n"), InnerLines(h, start));
  }

  lemma SectionParts(key: string, es: seq<Entry>)
    ensures EntriesParts([Entry(key, Mapping(es))], 0)
         == [Pad(0) + key + ":"] + NestedParts(JoinLines(EntriesParts(es, 1)) + "\n")
  {
    var e := Entry(key, Mapping(es));
    assert [e][0] == e && [e][1..] == [];
    assert EntriesParts([e], 0) == EntryParts(e, 0) + EntriesParts([], 0) && EntriesParts([], 0) == [];
    assert DumpText(es, 1) == JoinLines(EntriesParts(es, 1)) + "\n";
  }

  lemma SectionsPrintable(c: UserConfig)
    requires SafeOption(c.delivery.transport) && SafeOption(c.delivery.socketPath)
    ensures Printable([Entry("metrics", Mapping(MetricsDict(c.metrics)))])
    ensures Printable([Entry("delivery", Mapping(DeliveryDict(c.delivery)))])
  {
    MetricsPrintable(c.metrics);
    DeliveryPrintable(c.delivery);
    hide MetricsDict, DeliveryDict;
  }

  lemma SavedSpells(c: UserConfig, start: string)
    requires SafeButMessage(c.harnesses) && SafeText(start) && c.harnesses.migrationMessage == Some(MigrationMessage(start))
    requires SafeOption(c.delivery.transport) && SafeOption(c.delivery.socketPath)
    ensures Spells(EntriesParts(AsDict(c), 0), SavedLines(c, start))
  {
    var a := [Entry("metrics", Mapping(MetricsDict(c.metrics)))];
    var b := [Entry("harnesses", Mapping(HarnessesDict(c.harnesses)))];
    var d := [Entry("delivery", Mapping(DeliveryDict(c.delivery)))];
    assert AsDict(c) == a + b + d;
    SectionsPrintable(c);
    HarnessesSpell(c.harnesses, start);
    hide Spells, EntriesParts, DumpLines, Printable, SafeButMessage, SafeText, SafeOption, HarnessesDict, InnerLines;
    DumpSpells(a, 0);
    DumpSpells(d, 0);
    PartsConcat(a, b, 0);
    PartsConcat(a + b, d, 0);
    var lines := [Pad(0) + "harnesses" + ":"] + InnerLines(c.harnesses, start);
    SpellsConcat(EntriesParts(a, 0), DumpLines(a, 0), EntriesParts(b, 0), lines);
    SpellsConcat(EntriesParts(a + b, 0), DumpLines(a, 0) + lines, EntriesParts(d, 0), DumpLines(d, 0));
  }

  lemma SinglesConcat(a: seq<string>, b: seq<string>)
    requires AllSingleLine(a) && AllSingleLine(b)
    ensures AllSingleLine(a + b)
  {
  }

  lemma SavedSingleLines(c: UserConfig, start: string)
    requires SafeButMessage(c.harnesses) && SafeText(start)
    requires SafeOption(c.delivery.transport) && SafeOption(c.delivery.socketPath)
    ensures AllSingleLine(SavedLines(c, start))
  {
    var a := DumpLines([Entry("metrics", Mapping(MetricsDict(c.metrics)))], 0);
    var d := DumpLines([Entry("delivery", Mapping(DeliveryDict(c.delivery)))], 0);
    var head, tail := DumpLines(CutHead(c.harnesses, start), 1), DumpLines(HarnessesTail(c.harnesses), 1);
    SectionsPrintable(c);
    CutHeadPrintable(c.harnesses, start);
    TailPrintable(c.harnesses);
    var line := Pad(0) + "harnesses" + ":";
    FixedLines();
    hide Printable, DumpLines, SafeButMessage, SafeText, SafeOption, AllSingleLine, CutHead;
    DumpLinesSingle([Entry("metrics", Mapping(MetricsDict(c.metrics)))], 0);
    DumpLinesSingle([Entry("delivery", Mapping(DeliveryDict(c.delivery)))], 0);
    DumpLinesSingle(CutHead(c.harnesses, start), 1);
    DumpLinesSingle(HarnessesTail(c.harnesses), 1);
    SinglesConcat([MESSAGE_END], tail);
    SinglesConcat(head, [MESSAGE_END] + tail);
    SinglesConcat([line], InnerLines(c.harnesses, start));
    SinglesConcat(a, [line] + InnerLines(c.harnesses, start));
    SinglesConcat(a + ([line] + InnerLines(c.harnesses, start)), d);
  }

  lemma SavedSplits(c: UserConfig, start: string)
    requires SafeButMessage(c.harnesses) && SafeText(start) && c.harnesses.migrationMessage == Some(MigrationMessage(start))
    requires SafeOption(c.delivery.transport) && SafeOption(c.delivery.socketPath)
    ensures SplitLines(DumpText(AsDict(c), 0)) == SavedLines(c, start)
  {
    SavedSpells(c, start);
    SavedSingleLines(c, start);
    assert SavedLines(c, start) != [];
    hide SavedLines, SafeButMessage, SafeText, SafeOption, AsDict;
    JoinUnlines(EntriesParts(AsDict(c), 0));
    SplitUnlines(SavedLines(c, start));
  }

  // ---------------------------------------------------------------- reading the lines

  lemma NewKeysFrom(s: State, d: nat, es: seq<Entry>)
    requires Valid(s) && d < |s.store| && s.store[d].MapNode?
    requires forall i, k :: 0 <= i < |es| && 0 <= k < |Contents(s.store, d)| ==> Contents(s.store, d)[k].key != es[i].key
    ensures NewKeys(s.store, d, es)
  {
    var have := Contents(s.store, d);
    forall i, k | 0 <= i < |es| && 0 <= k < |s.store[d].fields|
      ensures s.store[d].fields[k].key != es[i].key
    {
      assert have[k].key == s.store[d].fields[k].key;
    }
  }

  /** The second line closes every container down to the root and adds nothing. */
  lemma RunEndLine(s: State, base: seq<Frame>)
    requires Inside(s, base, 0, true)
    ensures var r := Step(s, MESSAGE_END);
            r.store == s.store && r.stack == base && Adds(s, r, base, 0, [])
  {
    EndLine(MESSAGE_END);
    PopTo(s, base, 0);
    var r := Step(s, MESSAGE_END);
    assert Contents(s.store, Innermost(base)) + [] == Contents(s.store, Innermost(base));
  }

  lemma DeeperAdds(s: State, r: State, base: seq<Frame>, more: seq<Entry>)
    requires Adds(s, r, base, 2, more) && base != [] && base[|base| - 1].indent == 0 && At(s, base, 0)
    ensures Adds(s, r, base, 0, more)
  {
  }

  /** A section whose lines are interrupted by the second message line loses its later entries to the root. */
  lemma RunCut(s: State, base: seq<Frame>, key: string, head: seq<Entry>, tail: seq<Entry>)
    requires Inside(s, base, 0, true) && base[|base| - 1].indent == 0
    requires LegalKey(key) && NewKey(s.store, Innermost(base), key) && NewKeys(s.store, Innermost(base), tail)
    requires Printable(head) && Printable(tail) && forall i :: 0 <= i < |tail| ==> tail[i].key != key
    ensures Adds(s, Run(s, [Pad(0) + key + ":"] + (DumpLines(head, 1) + ([MESSAGE_END] + DumpLines(tail, 1)))), base, 0,
                 [Entry(key, Mapping(ReadBack(head)))] + ReadBack(tail))
  {
    RunOpens(s, base, key, DumpLines(head, 1) + ([MESSAGE_END] + DumpLines(tail, 1)), 0);
    CutFrom(s, Opened(s, base, key, 0), base, key, head, tail);
  }

  lemma CutFrom(s: State, mid: State, base: seq<Frame>, key: string, head: seq<Entry>, tail: seq<Entry>)
    requires Inside(s, base, 0, true) && base[|base| - 1].indent == 0 && NewKeys(s.store, Innermost(base), tail)
    requires Valid(mid) && mid == Opened(s, base, key, 2 * 0)
    requires Printable(head) && Printable(tail) && forall i :: 0 <= i < |tail| ==> tail[i].key != key
    ensures Adds(s, Run(mid, DumpLines(head, 1) + ([MESSAGE_END] + DumpLines(tail, 1))), base, 0,
                 [Entry(key, Mapping(ReadBack(head)))] + ReadBack(tail))
  {
    hide *;
    RunConcat(mid, DumpLines(head, 1), [MESSAGE_END] + DumpLines(tail, 1));
    FillMapping(s, mid, base, key, head, 0);
    RunRest(s, Run(mid, DumpLines(head, 1)), base, Entry(key, Mapping(ReadBack(head))), tail);
  }

  /** The lines after the message go to the root. */
  lemma RunRest(s: State, filled: State, base: seq<Frame>, entry: Entry, tail: seq<Entry>)
    requires Adds(s, filled, base, 0, [entry]) && base[|base| - 1].indent == 0 && Printable(tail)
    requires NewKeys(s.store, Innermost(base), tail)
    requires forall i :: 0 <= i < |tail| ==> tail[i].key != entry.key
    ensures Adds(s, Run(filled, [MESSAGE_END] + DumpLines(tail, 1)), base, 0, [entry] + ReadBack(tail))
  {
    StillNew(s, filled, base, 0, entry, entry.value, tail);
    RunEndLine(filled, base);
    var closed := Step(filled, MESSAGE_END);
    RunOne(filled, MESSAGE_END);
    RunConcat(filled, [MESSAGE_END], DumpLines(tail, 1));
    assert Inside(closed, base, 2, true);
    var r := Run(closed, DumpLines(tail, 1));
    hide DumpLines, Printable;
    RunEntries(closed, base, tail, 1);
    DeeperAdds(closed, r, base, ReadBack(tail));
    AddsTwice(s, filled, closed, base, 0, [entry], []);
    assert [entry] + [] == [entry];
    AddsTwice(s, closed, r, base, 0, [entry], ReadBack(tail));
  }

  // ---------------------------------------------------------------- what is loaded

  /** The tree that a saved migrated configuration is read as. */
  function CutTree(c: UserConfig, start: string): seq<Entry> {
    ReadBack([Entry("metrics", Mapping(MetricsDict(c.metrics)))])
    + ([Entry("harnesses", Mapping(ReadBack(CutHead(c.harnesses, start))))] + ReadBack(HarnessesTail(c.harnesses)))
    + ReadBack([Entry("delivery", Mapping(DeliveryDict(c.delivery)))])
  }

  lemma SectionNames()
    ensures LegalKey("harnesses")
    ensures "metrics" != "harnesses" && "delivery" != "harnesses" && "metrics" != "delivery"
    ensures "gemini" != "harnesses" && "custom" != "harnesses" && "gemini" != "custom"
    ensures "gemini" != "metrics" && "custom" != "metrics" && "gemini" != "delivery" && "custom" != "delivery"
  {
    assert |"gemini"| == 6 && |"custom"| == 6 && |"harnesses"| == 9 && |"metrics"| == 7 && |"delivery"| == 8;
    assert "gemini"[0] == 'g' && "custom"[0] == 'c';
  }

  /** The lines of a file whose middle section is cut. */
  function CutLines(a: seq<Entry>, key: string, head: seq<Entry>, tail: seq<Entry>, d: seq<Entry>): seq<string> {
    DumpLines(a, 0) + ([Pad(0) + key + ":"] + (DumpLines(head, 1) + ([MESSAGE_END] + DumpLines(tail, 1)))) + DumpLines(d, 0)
  }

  predicate Apart(a: seq<Entry>, b: seq<Entry>) {
    forall i, j :: 0 <= i < |a| && 0 <= j < |b| ==> a[i].key != b[j].key
  }

  /** Entries with keys unlike those read so far are new to the root. */
  lemma NewAtRoot(s: State, r: State, base: seq<Frame>, read: seq<Entry>, es: seq<Entry>)
    requires Adds(s, r, base, 0, read) && Contents(s.store, Innermost(base)) == [] && Apart(read, es)
    ensures NewKeys(r.store, Innermost(base), es)
  {
    assert Contents(r.store, Innermost(base)) == read;
    NewKeysFrom(r, Innermost(base), es);
  }

  lemma StartInside()
    ensures Inside(Start, Start.stack, 0, true) && Contents(Start.store, 0) == [] && Innermost(Start.stack) == 0
    ensures forall es :: NewKeys(Start.store, Innermost(Start.stack), es)
  {
    StartIsValid();
  }

  lemma CutSections(a: seq<Entry>, key: string, head: seq<Entry>, tail: seq<Entry>, d: seq<Entry>)
    requires Printable(a) && Printable(head) && Printable(tail) && Printable(d) && LegalKey(key)
    requires Apart(a, tail) && Apart(a, d) && Apart(tail, d)
    requires Apart(a + tail + d, [Entry(key, Mapping([]))])
    ensures Valid(Start) && Adds(Start, Run(Start, CutLines(a, key, head, tail, d)), Start.stack, 0,
                                 ReadBack(a) + ([Entry(key, Mapping(ReadBack(head)))] + ReadBack(tail)) + ReadBack(d))
  {
    var lines := [Pad(0) + key + ":"] + (DumpLines(head, 1) + ([MESSAGE_END] + DumpLines(tail, 1)));
    var middle := [Entry(key, Mapping(ReadBack(head)))] + ReadBack(tail);
    StartInside();
    ApartParts(a, tail, d, [Entry(key, Mapping([]))]);
    assert CutLines(a, key, head, tail, d) == DumpLines(a, 0) + lines + DumpLines(d, 0);
    hide *;
    RunEntries(Start, Start.stack, a, 0);
    var s1 := Run(Start, DumpLines(a, 0));
    RunConcat(Start, DumpLines(a, 0) + lines, DumpLines(d, 0));
    RunConcat(Start, DumpLines(a, 0), lines);
    CutMiddle(s1, a, key, head, tail);
    var s2 := Run(s1, lines);
    AddsTwice(Start, s1, s2, Start.stack, 0, ReadBack(a), middle);
    CutLast(s2, a, key, head, tail, d);
    AddsTwice(Start, s2, Run(s2, DumpLines(d, 0)), Start.stack, 0, ReadBack(a) + middle, ReadBack(d));
  }

  lemma ApartParts(a: seq<Entry>, b: seq<Entry>, c: seq<Entry>, d: seq<Entry>)
    requires Apart(a + b + c, d)
    ensures Apart(a, d) && Apart(b, d) && Apart(c, d)
  {
    var all := a + b + c;
    forall i, j | 0 <= i < |a| && 0 <= j < |d| ensures a[i].key != d[j].key { assert all[i] == a[i]; }
    forall i, j | 0 <= i < |b| && 0 <= j < |d| ensures b[i].key != d[j].key { assert all[|a| + i] == b[i]; }
    forall i, j | 0 <= i < |c| && 0 <= j < |d| ensures c[i].key != d[j].key { assert all[|a| + |b| + i] == c[i]; }
  }

  lemma CutMiddle(s: State, a: seq<Entry>, key: string, head: seq<Entry>, tail: seq<Entry>)
    requires Adds(Start, s, Start.stack, 0, ReadBack(a))
    requires Printable(head) && Printable(tail) && LegalKey(key)
    requires Apart(a, tail) && Apart(a, [Entry(key, Mapping([]))]) && Apart(tail, [Entry(key, Mapping([]))])
    ensures Adds(s, Run(s, [Pad(0) + key + ":"] + (DumpLines(head, 1) + ([MESSAGE_END] + DumpLines(tail, 1)))),
                 Start.stack, 0, [Entry(key, Mapping(ReadBack(head)))] + ReadBack(tail))
  {
    var one := [Entry(key, Mapping([]))];
    StartInside();
    assert Apart(ReadBack(a), tail) && Apart(ReadBack(a), one);
    NewAtRoot(Start, s, Start.stack, ReadBack(a), tail);
    NewAtRoot(Start, s, Start.stack, ReadBack(a), one);
    assert NewKey(s.store, 0, one[0].key);
    RunCut(s, Start.stack, key, head, tail);
  }

  lemma CutLast(s: State, a: seq<Entry>, key: string, head: seq<Entry>, tail: seq<Entry>, d: seq<Entry>)
    requires Adds(Start, s, Start.stack, 0, ReadBack(a) + ([Entry(key, Mapping(ReadBack(head)))] + ReadBack(tail)))
    requires Printable(d) && Apart(a, d) && Apart(tail, d) && Apart(d, [Entry(key, Mapping([]))])
    ensures Adds(s, Run(s, DumpLines(d, 0)), Start.stack, 0, ReadBack(d))
  {
    var read := ReadBack(a) + ([Entry(key, Mapping(ReadBack(head)))] + ReadBack(tail));
    StartInside();
    assert forall j :: 0 <= j < |d| ==> d[j].key != [Entry(key, Mapping([]))][0].key;
    assert Apart(read, d);
    hide *;
    NewAtRoot(Start, s, Start.stack, read, d);
    RunEntries(s, Start.stack, d, 0);
  }

  lemma ParsedTree(text: string, lines: seq<string>, es: seq<Entry>)
    requires SplitLines(text) == lines && Valid(Start) && Adds(Start, Run(Start, lines), Start.stack, 0, es)
    ensures ParseText(text) == es
  {
    assert Contents(Start.store, 0) == [];
  }

  lemma SectionsApart(c: UserConfig)
    ensures var a := [Entry("metrics", Mapping(MetricsDict(c.metrics)))];
            var d := [Entry("delivery", Mapping(DeliveryDict(c.delivery)))];
            var tail := HarnessesTail(c.harnesses);
            && Apart(a, tail) && Apart(a, d) && Apart(tail, d)
            && Apart(a + tail + d, [Entry("harnesses", Mapping([]))])
  {
    SectionNames();
    hide GeminiDict, CustomEntries, MetricsDict, DeliveryDict;
  }

  lemma CutTreeParsed(c: UserConfig, start: string)
    requires SafeButMessage(c.harnesses) && SafeText(start) && c.harnesses.migrationMessage == Some(MigrationMessage(start))
    requires SafeOption(c.delivery.transport) && SafeOption(c.delivery.socketPath)
    ensures ParseText(DumpText(AsDict(c), 0))
         == ReadBack([Entry("metrics", Mapping(MetricsDict(c.metrics)))])
            + ([Entry("harnesses", Mapping(ReadBack(CutHead(c.harnesses, start))))] + ReadBack(HarnessesTail(c.harnesses)))
            + ReadBack([Entry("delivery", Mapping(DeliveryDict(c.delivery)))])
  {
    var a := [Entry("metrics", Mapping(MetricsDict(c.metrics)))];
    var d := [Entry("delivery", Mapping(DeliveryDict(c.delivery)))];
    var head, tail := CutHead(c.harnesses, start), HarnessesTail(c.harnesses);
    SectionNames();
    SectionsApart(c);
    assert SavedLines(c, start) == CutLines(a, "harnesses", head, tail, d);
    hide *;
    SavedSplits(c, start);
    SectionsPrintable(c);
    CutHeadPrintable(c.harnesses, start);
    TailPrintable(c.harnesses);
    CutSections(a, "harnesses", head, tail, d);
    ParsedTree(DumpText(AsDict(c), 0), CutLines(a, "harnesses", head, tail, d),
               ReadBack(a) + ([Entry("harnesses", Mapping(ReadBack(head)))] + ReadBack(tail)) + ReadBack(d));
  }

  // ---------------------------------------------------------------- the configuration that is loaded

  /** What a configuration with a migration message is loaded back as. */
  function CutConfig(c: UserConfig, start: string): UserConfig {
    c.(harnesses := c.harnesses.(gemini := DEFAULT_GEMINI, custom := [], migrationMessage := Some(start)))
  }

  lemma HeadNames()
    ensures "gemini" != "enabled" && "gemini" != "default" && "gemini" != "selection_required" && "gemini" != "migration_message"
    ensures "custom" != "enabled" && "custom" != "default" && "custom" != "selection_required" && "custom" != "migration_message"
  {
    assert |"gemini"| == 6 && |"custom"| == 6 && |"enabled"| == 7 && |"default"| == 7;
    assert |"selection_required"| == 18 && |"migration_message"| == 17;
  }

  lemma HeadFields(h: Harnesses, start: string)
    requires SafeButMessage(h) && SafeText(start)
    ensures var back := ReadBack(CutHead(h, start));
            && Get(back, "enabled") == Some(ReadBackValue(Listing(Texts(h.enabled))))
            && Get(back, "default") == Some(ReadBackValue(OptText(h.default)))
            && Get(back, "selection_required") == Some(ReadBackValue(Leaf(Bool(h.selectionRequired))))
            && Get(back, "migration_message") == Some(ReadBackValue(Leaf(Str(start))))
            && Get(back, "gemini") == None && Get(back, "custom") == None
  {
    var es := CutHead(h, start);
    hide *;
    HeadShape(h, start);
    HeadNames();
    GetBack(es, 0);
    GetBack(es, 1);
    GetBack(es, 2);
    GetBack(es, 3);
    GetMissing(ReadBack(es), "gemini");
    GetMissing(ReadBack(es), "custom");
  }

  lemma HeadShape(h: Harnesses, start: string)
    requires SafeButMessage(h) && SafeText(start)
    ensures var es := CutHead(h, start);
            && |es| == 4 && DistinctKeys(es)
            && es[0] == Entry("enabled", Listing(Texts(h.enabled))) && es[1] == Entry("default", OptText(h.default))
            && es[2] == Entry("selection_required", Leaf(Bool(h.selectionRequired)))
            && es[3] == Entry("migration_message", Leaf(Str(start)))
  {
    CutHeadPrintable(h, start);
    hide SafeButMessage, SafeText, Texts, OptText, PrintableValue, LegalKey;
  }

  /** Without entries for Gemini and for custom harnesses, these are the default ones. */
  lemma HarnessesWithout(data: seq<Entry>, raw: seq<Entry>, repr: Repr)
    requires Get(data, "harnesses") == Some(Mapping(raw)) && Get(data, "default_harness") == None
    requires Get(raw, "gemini") == None && Get(raw, "custom") == None
    ensures HarnessesFrom(data, repr)
         == Some(Harnesses(StringsOf(Get(raw, "enabled"), AtSpacesAndCommas, [], repr), OptStr(Get(raw, "default"), repr), [],
                           DEFAULT_GEMINI, Truthy(Get(raw, "selection_required")),
                           if IsNone(Get(raw, "migration_message")) then None
                           else Some(StrOf(Get(raw, "migration_message").value, repr))))
  {
    NoGemini(repr);
    assert CustomsFrom([], repr) == Some([]);
    hide Get, StringsOf, OptStr, StrOf, Truthy, GeminiFrom, HarnessesFrom;
    HarnessesFromFields(data, raw, [], repr);
  }

  lemma NoGemini(repr: Repr)
    ensures GeminiFrom(None, repr) == DEFAULT_GEMINI
  {
  }

  lemma CutHarnesses(h: Harnesses, start: string, data: seq<Entry>, repr: Repr)
    requires SafeButMessage(h) && SafeText(start)
    requires Get(data, "harnesses") == Some(Mapping(ReadBack(CutHead(h, start)))) && Get(data, "default_harness") == None
    ensures HarnessesFrom(data, repr)
         == Some(h.(gemini := DEFAULT_GEMINI, custom := [], migrationMessage := Some(start)))
  {
    HeadFields(h, start);
    ListBack(h.enabled, AtSpacesAndCommas, [], repr);
    OptionBack(h.default, repr);
    BoolBack(h.selectionRequired);
    TextBack(start, "", repr);
    HarnessesWithout(data, ReadBack(CutHead(h, start)), repr);
    hide ReadBack, ReadBackValue, CutHead, Get, StringsOf, SafeTexts, SafeButMessage, SafeText, OptStr, HarnessesFrom;
  }

  lemma CutFields(c: UserConfig, start: string)
    ensures var data := CutTree(c, start);
            && Get(data, "metrics") == Some(Mapping(ReadBack(MetricsDict(c.metrics))))
            && Get(data, "harnesses") == Some(Mapping(ReadBack(CutHead(c.harnesses, start))))
            && Get(data, "delivery") == Some(Mapping(ReadBack(DeliveryDict(c.delivery))))
            && Get(data, "default_harness") == None
  {
    var data := CutTree(c, start);
    SectionNames();
    LegacyKeyMissing();
    TailShape(c.harnesses);
    One(Entry("metrics", Mapping(MetricsDict(c.metrics))));
    One(Entry("delivery", Mapping(DeliveryDict(c.delivery))));
    hide ReadBack, Get, CutHead, HarnessesTail;
    assert |data| == 5 && data[0].key == "metrics" && data[1].key == "harnesses" && data[4].key == "delivery";
    assert data[2].key == "gemini" && data[3].key == "custom";
    assert DistinctKeys(data);
    GetAt(data, 0);
    GetAt(data, 1);
    GetAt(data, 4);
    GetMissing(data, "default_harness");
  }

  lemma TailShape(h: Harnesses)
    ensures |ReadBack(HarnessesTail(h))| == 2
    ensures ReadBack(HarnessesTail(h))[0].key == "gemini" && ReadBack(HarnessesTail(h))[1].key == "custom"
  {
  }

  lemma One(e: Entry)
    ensures ReadBack([e]) == [Entry(e.key, ReadBackValue(e.value))]
  {
    assert [e][1..] == [];
  }

  lemma CutLoads(c: UserConfig, start: string, repr: Repr)
    requires SafeButMessage(c.harnesses) && SafeText(start) && c.harnesses.migrationMessage == Some(MigrationMessage(start))
    requires SafeOption(c.delivery.transport) && SafeOption(c.delivery.socketPath)
    ensures FromMapping(ParseText(DumpText(AsDict(c), 0)), repr) == Some(CutConfig(c, start))
  {
    CutTreeParsed(c, start);
    CutFields(c, start);
    MetricsBack(c.metrics, repr);
    CutHarnesses(c.harnesses, start, CutTree(c, start), repr);
    DeliveryBack(c.delivery, repr);
    assert ParseText(DumpText(AsDict(c), 0)) == CutTree(c, start);
    hide ReadBack, Get, CutTree, CutHead, AsDict, ParseText, DumpText, SafeButMessage, SafeText, HarnessesFrom;
    hide DeliveryFrom, MetricsFrom, MigrationMessage, SafeOption, MetricsDict, DeliveryDict, FromMapping;
    SectionsLoad(CutTree(c, start), ReadBack(MetricsDict(c.metrics)), CutConfig(c, start).harnesses, repr);
  }

  /** What is read from the file of a migrated configuration. */
  function SecondReading(c: UserConfig): UserConfig {
    var m := Migrate(c).0;
    if WritesMessage(c.harnesses) then CutConfig(m, MessageStart(c.harnesses)) else Loaded(m)
  }

  lemma MigratedConfigReads(c: UserConfig, repr: Repr)
    requires SafeConfig(c) && HadRemoved(c.harnesses)
    ensures FromMapping(ParseText(Saved(Migrate(c).0)), repr) == Some(SecondReading(c))
  {
    var m := Migrate(c).0;
    var start := MessageStart(c.harnesses);
    MessageWritten(c);
    MigratedIsSafe(c);
    StartIsSafe(start);
    assert Saved(m) == DumpText(AsDict(m), 0);
    if WritesMessage(c.harnesses) {
      CutLoads(m, start, repr);
    } else {
      SavedConfigReads(m, repr);
    }
  }

  /** It is the migrated configuration exactly when the migration kept an older message and no allowlist is empty. */
  lemma RereadSameExactly(c: UserConfig)
    requires SafeConfig(c) && HadRemoved(c.harnesses)
    ensures SameConfig(SecondReading(c), Migrate(c).0) <==> !WritesMessage(c.harnesses) && AllowlistsNonEmpty(c)
    ensures !HadRemoved(SecondReading(c).harnesses)
  {
    var m := Migrate(c).0;
    MessageWritten(c);
    MigratedIsSafe(c);
    LoadedSame(m);
    LoadedRemoved(m);
    hide SortCustom, RereadAll, WithoutRemoved, MigratedMessage, MigrationMessage, MessageStart;
    if WritesMessage(c.harnesses) {
      MessageIsLonger(MessageStart(c.harnesses));
    }
  }

  lemma MessageIsLonger(start: string)
    ensures MigrationMessage(start) != start
  {
    assert |MigrationMessage(start)| > |start|;
  }

  /**
   * A configuration that had to be migrated, saved and loaded again: when the migration wrote
   * its message, the Gemini settings and the custom harnesses are gone and the message is cut.
   * It survives exactly when the migration kept an older message and no allowlist is empty.
   */
  lemma MigratedConfigLoads(c: UserConfig, repr: Repr)
    requires SafeConfig(c) && HadRemoved(c.harnesses)
    ensures var m := Migrate(c).0;
            && MigratedTo(c, m)
            && LoadFile(Saved(m), repr) == (Some(SecondReading(c)), Saved(m))
            && (SameConfig(SecondReading(c), m) <==> !WritesMessage(c.harnesses) && AllowlistsNonEmpty(c))
  {
    hide *;
    GoneIsRemoved(c.harnesses);
    MigrateDescribed(c);
    MigratedConfigReads(c, repr);
    RereadSameExactly(c);
    LoadFileIs(Saved(Migrate(c).0), SecondReading(c), repr);
  }

  lemma DefaultsAreSafe()
    ensures SafeTexts(DEFAULT_ALLOWLIST)
  {
    assert |Lower("PATH")| == 4 && Lower("PATH")[0] == 'p' && Lower("HOME")[0] == 'h' && |Lower("HOME")| == 4;
    assert DigitValue('P').None? && DigitValue('H').None?;
  }

  lemma LoadedIsSafe(c: UserConfig)
    requires SafeConfig(c)
    ensures SafeConfig(Loaded(c))
  {
    SortIsSafe(c.harnesses.custom);
    hide SortCustom, RereadAll, SafeCustoms, SafeTexts, SafeGemini, SafeText, SafeOption;
    RereadIsSafe(SortCustom(c.harnesses.custom));
  }

  lemma RereadIsSafe(custom: seq<(string, Custom)>)
    requires SafeCustoms(custom)
    ensures SafeCustoms(RereadAll(custom))
  {
    DefaultsAreSafe();
    hide SafeTexts, SafeText, LegalKey;
    forall i | 0 <= i < |custom|
      ensures SafeCustom(RereadAll(custom)[i].1)
    {
      assert SafeCustom(custom[i].1);
    }
    hide SafeCustom;
  }

  lemma LoadedAllowlists(c: UserConfig)
    ensures AllowlistsNonEmpty(Loaded(c)) && MessageStart(Loaded(c).harnesses) == MessageStart(c.harnesses)
    ensures WritesMessage(Loaded(c).harnesses) == WritesMessage(c.harnesses)
  {
    RereadSame(SortCustom(c.harnesses.custom));
    hide SortCustom, RereadAll;
  }

  /**
   * The file of a safe configuration with removed ids, loaded again and again. The first load
   * migrates, and returns what it writes; the second returns what it reads of that, which is the
   * same exactly when no message was written; from then on nothing changes any more.
   */
  lemma LoadsOverTime(c: UserConfig, repr: Repr)
    requires SafeConfig(c) && HadRemoved(c.harnesses)
    ensures var m, again := Migrate(Loaded(c)).0, SecondReading(Loaded(c));
            && MigratedTo(Loaded(c), m)
            && LoadFile(Saved(c), repr) == (Some(m), Saved(m))
            && LoadFile(Saved(m), repr) == (Some(again), Saved(m))
            && (SameConfig(again, m) <==> !WritesMessage(c.harnesses))
  {
    hide *;
    SavedConfigReads(c, repr);
    LoadedRemoved(c);
    LoadFileIs(Saved(c), Loaded(c), repr);
    LoadedIsSafe(c);
    LoadedAllowlists(c);
    MigratedConfigLoads(Loaded(c), repr);
  }
}
