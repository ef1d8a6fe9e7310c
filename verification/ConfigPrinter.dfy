/** Writing a tree: `_dump_simple_yaml`. */
module ConfigPrinter {
  import opened PythonText
  import opened ConfigScalars
  import opened ConfigValues

  function Pad(indent: nat): string {
    Spaces(2 * indent)
  }

  /** The text written for a mapping: its pieces joined by newlines, and a final newline. */
  function DumpText(es: seq<Entry>, indent: nat): (text: string)
    ensures text != "" && text[|text| - 1] == '\n'
    decreases es, 1
  {
    JoinLines(EntriesParts(es, indent)) + "\n"
  }

  /** The pieces of a mapping. A nested mapping contributes one piece that spans several lines. */
  function EntriesParts(es: seq<Entry>, indent: nat): seq<string>
    decreases es, 0
  {
    if es == [] then [] else EntryParts(es[0], indent) + EntriesParts(es[1..], indent)
  }

  function EntryParts(e: Entry, indent: nat): seq<string>
    decreases e, 0
  {
    match e.value
    case Leaf(v) => [Pad(indent) + e.key + ": " + RenderScalar(v)]
    case Mapping(sub) => [Pad(indent) + e.key + ":"] + NestedParts(DumpText(sub, indent + 1))
    case Listing(items) => [Pad(indent) + e.key + ":"] + ItemsParts(items, indent)
  }

  function ItemsParts(items: seq<Item>, indent: nat): seq<string>
    decreases items, 0
  {
    if items == [] then [] else ItemParts(items[0], indent) + ItemsParts(items[1..], indent)
  }

  function ItemParts(item: Item, indent: nat): seq<string>
    decreases item, 0
  {
    match item
    case ScalarItem(v) => [Pad(indent) + "  - " + RenderScalar(v)]
    case MapItem(sub) => [Pad(indent) + "  -"] + NestedParts(DumpText(sub, indent + 2))
  }

  function NestedParts(nested: string): seq<string> {
    if Strip(nested) == "" then [] else [RStripNewlines(nested)]
  }

  lemma EntriesPartsStep(es: seq<Entry>, i: nat, indent: nat)
    requires i < |es|
    ensures EntriesParts(es[i..], indent) == EntryParts(es[i], indent) + EntriesParts(es[i + 1..], indent)
  {
    assert es[i..][1..] == es[i + 1..];
  }

  lemma ItemsPartsStep(items: seq<Item>, i: nat, indent: nat)
    requires i < |items|
    ensures ItemsParts(items[i..], indent) == ItemParts(items[i], indent) + ItemsParts(items[i + 1..], indent)
  {
    assert items[i..][1..] == items[i + 1..];
  }

  lemma Regroup(a: seq<string>, b: seq<string>, c: seq<string>)
    ensures a + b + c == a + (b + c)
  {
  }

  lemma EntryPartsCases(e: Entry, indent: nat)
    ensures e.value.Leaf? ==> EntryParts(e, indent) == [Pad(indent) + e.key + ": " + RenderScalar(e.value.v)]
    ensures e.value.Mapping? ==>
      EntryParts(e, indent) == [Pad(indent) + e.key + ":"] + NestedParts(DumpText(e.value.entries, indent + 1))
    ensures e.value.Listing? ==> EntryParts(e, indent) == [Pad(indent) + e.key + ":"] + ItemsParts(e.value.items, indent)
  {
  }

  lemma NestedPartsCases(nested: string)
    ensures NestedParts(nested) == if Strip(nested) == "" then [] else [RStripNewlines(nested)]
  {
  }

  /** The printer itself: it appends to a list while it walks the entries, and joins at the end. */
  method DumpSimpleYaml(data: seq<Entry>, indent: nat) returns (text: string)
    ensures text == DumpText(data, indent)
    decreases data
  {
    var lines: seq<string> := [];
    DumpStart(data, indent);
    hide *;
    for i := 0 to |data|
      invariant lines + EntriesParts(data[i..], indent) == EntriesParts(data, indent)
    {
      var entry := data[i];
      ghost var before := lines;
      EntriesPartsStep(data, i, indent);
      EntryPartsCases(entry, indent);
      var head := [Pad(indent) + entry.key + ":"];
      if entry.value.Mapping? {
        lines := lines + head;
        var nested := DumpSimpleYaml(entry.value.entries, indent + 1);
        NestedPartsCases(nested);
        if Strip(nested) != "" {
          lines := lines + [RStripNewlines(nested)];
        }
        Regroup(before, head, NestedParts(nested));
        assert lines == before + EntryParts(entry, indent);
      } else if entry.value.Listing? {
        lines := lines + head;
        lines := AppendItems(lines, entry.value.items, indent);
        Regroup(before, head, ItemsParts(entry.value.items, indent));
      } else {
        lines := lines + [Pad(indent) + entry.key + ": " + RenderScalar(entry.value.v)];
      }
      Regroup(before, EntryParts(entry, indent), EntriesParts(data[i + 1..], indent));
    }
    assert lines + [] == lines;
    text := JoinLines(lines) + "\n";
  }

  lemma DumpStart(es: seq<Entry>, indent: nat)
    ensures es[0..] == es && EntriesParts(es[|es|..], indent) == []
    ensures DumpText(es, indent) == JoinLines(EntriesParts(es, indent)) + "\n"
  {
  }

  /** The printer's inner loop, over the items of a list. */
  method AppendItems(before: seq<string>, items: seq<Item>, indent: nat) returns (lines: seq<string>)
    ensures lines == before + ItemsParts(items, indent)
    decreases items
  {
    lines := before;
    assert items[0..] == items;
    for j := 0 to |items|
      invariant lines + ItemsParts(items[j..], indent) == before + ItemsParts(items, indent)
    {
      var item := items[j];
      ghost var soFar := lines;
      ItemsPartsStep(items, j, indent);
      if item.MapItem? {
        lines := lines + [Pad(indent) + "  -"];
        var nested := DumpSimpleYaml(item.entries, indent + 2);
        if Strip(nested) != "" {
          lines := lines + [RStripNewlines(nested)];
        }
      } else {
        lines := lines + [Pad(indent) + "  - " + RenderScalar(item.v)];
      }
      assert lines == soFar + ItemParts(item, indent);
      Regroup(soFar, ItemParts(item, indent), ItemsParts(items[j + 1..], indent));
    }
    assert lines + ItemsParts(items[|items|..], indent) == lines;
  }

  // ---------------------------------------------------------------- the lines of printable trees

  function DumpLines(es: seq<Entry>, indent: nat): seq<string>
    decreases es, 0
  {
    if es == [] then [] else EntryLines(es[0], indent) + DumpLines(es[1..], indent)
  }

  function EntryLines(e: Entry, indent: nat): seq<string>
    decreases e, 0
  {
    match e.value
    case Leaf(v) => [Pad(indent) + e.key + ": " + RenderScalar(v)]
    case Mapping(sub) => [Pad(indent) + e.key + ":"] + DumpLines(sub, indent + 1)
    case Listing(items) => [Pad(indent) + e.key + ":"] + ItemsLines(items, indent)
  }

  function ItemsLines(items: seq<Item>, indent: nat): seq<string>
    decreases items, 0
  {
    if items == [] then [] else ItemLines(items[0], indent) + ItemsLines(items[1..], indent)
  }

  function ItemLines(item: Item, indent: nat): seq<string>
    decreases item, 0
  {
    match item
    case ScalarItem(v) => [Pad(indent) + "  - " + RenderScalar(v)]
    case MapItem(sub) => [Pad(indent) + "  -"] + DumpLines(sub, indent + 2)
  }

  predicate AllSingleLine(lines: seq<string>) {
    forall i :: 0 <= i < |lines| ==> SingleLine(lines[i])
  }

  lemma RenderSingleLine(v: Scalar)
    requires SingleLineScalar(v)
    ensures SingleLine(RenderScalar(v))
  {
  }

  lemma KeySingleLine(k: string)
    requires LegalKey(k)
    ensures SingleLine(k)
  {
    forall i | 0 <= i < |k|
      ensures !IsLineBreak(k[i])
    {
      assert IsKeyChar(k[i]);
    }
  }

  lemma {:induction false} DumpLinesSingle(es: seq<Entry>, indent: nat)
    requires Printable(es)
    ensures AllSingleLine(DumpLines(es, indent))
    decreases es, 0
  {
    if es != [] {
      KeySingleLine(es[0].key);
      match es[0].value {
        case Leaf(v) => RenderSingleLine(v);
        case Mapping(sub) => DumpLinesSingle(sub, indent + 1);
        case Listing(items) => ItemsLinesSingle(items, indent);
      }
      DumpLinesSingle(es[1..], indent);
    }
  }

  lemma {:induction false} ItemsLinesSingle(items: seq<Item>, indent: nat)
    requires forall i :: 0 <= i < |items| ==> PrintableItem(items[i])
    ensures AllSingleLine(ItemsLines(items, indent))
    decreases items, 0
  {
    if items != [] {
      assert PrintableItem(items[0]);
      match items[0] {
        case ScalarItem(v) => RenderSingleLine(v);
        case MapItem(sub) => DumpLinesSingle(sub, indent + 2);
      }
      ItemsLinesSingle(items[1..], indent);
    }
  }

  // ---------------------------------------------------------------- text and lines agree

  predicate EndsCleanly(s: string) {
    s != "" && s[|s| - 1] != '\n' && Strip(s) != ""
  }

  /** A piece list whose pieces, each ended by a newline, make up exactly the given lines. */
  predicate Spells(parts: seq<string>, lines: seq<string>) {
    Unlines(parts) == Unlines(lines) && (parts == [] <==> lines == []) && forall i :: 0 <= i < |parts| ==> EndsCleanly(parts[i])
  }

  lemma SpellsConcat(a: seq<string>, b: seq<string>, c: seq<string>, d: seq<string>)
    requires Spells(a, b) && Spells(c, d)
    ensures Spells(a + c, b + d)
  {
    UnlinesConcat(a, c);
    UnlinesConcat(b, d);
  }

  lemma NonSpaceSurvives(s: string, i: nat)
    requires i < |s| && !IsSpace(s[i])
    ensures Strip(s) != ""
  {
    NonSpaceLeft(s, i);
    var t := LStrip(s);
    assert !IsSpace(t[0]);
    NonSpaceRight(t, 0);
  }

  lemma {:induction false} NonSpaceLeft(s: string, i: nat)
    requires i < |s| && !IsSpace(s[i])
    ensures LStrip(s) != ""
  {
    if IsSpace(s[0]) { NonSpaceLeft(s[1..], i - 1); }
  }

  lemma {:induction false} NonSpaceRight(s: string, i: nat)
    requires i < |s| && !IsSpace(s[i])
    ensures RStrip(s) != ""
  {
    if IsSpace(s[|s| - 1]) { NonSpaceRight(s[..|s| - 1], i); }
  }

  lemma OneLineSpells(line: string, i: nat)
    requires SingleLine(line) && i < |line| && !IsSpace(line[i])
    ensures Spells([line], [line])
  {
    NonSpaceSurvives(line, i);
    assert !IsLineBreak(line[|line| - 1]);
  }

  lemma {:induction false} JoinKeepsEnd(parts: seq<string>)
    requires parts != [] && forall i :: 0 <= i < |parts| ==> EndsCleanly(parts[i])
    ensures EndsCleanly(JoinLines(parts))
  {
    if |parts| > 1 {
      hide EndsCleanly;
      JoinKeepsEnd(parts[1..]);
      EndKept(parts[0], JoinLines(parts[1..]));
    }
  }

  lemma EndKept(first: string, tail: string)
    requires EndsCleanly(tail)
    ensures EndsCleanly(first + "\n" + tail)
  {
    var whole := first + "\n" + tail;
    assert whole[|whole| - 1] == tail[|tail| - 1];
    HasNonSpace(tail);
    var i :| 0 <= i < |tail| && !IsSpace(tail[i]);
    assert whole[|first| + 1 + i] == tail[i];
    NonSpaceSurvives(whole, |first| + 1 + i);
  }

  lemma {:induction false} HasNonSpace(s: string)
    requires Strip(s) != ""
    ensures exists i :: 0 <= i < |s| && !IsSpace(s[i])
  {
    if IsSpace(s[0]) {
      HasNonSpace(s[1..]);
      var i :| 0 <= i < |s[1..]| && !IsSpace(s[1..][i]);
      assert !IsSpace(s[i + 1]);
    }
  }

  /** Nesting: the piece made of a nested text spells that text's lines. */
  /** Nested text that ends cleanly is one piece: itself without its final newline. */
  lemma OnePiece(body: string)
    requires EndsCleanly(body)
    ensures NestedParts(body + "\n") == [body] && Unlines([body]) == body + "\n"
  {
    var nested := body + "\n";
    HasNonSpace(body);
    var i :| 0 <= i < |body| && !IsSpace(body[i]);
    assert nested[i] == body[i];
    NonSpaceSurvives(nested, i);
    hide Strip, IsSpace;
    assert nested[..|nested| - 1] == body;
    assert RStripNewlines(nested) == body;
    assert [body][1..] == [];
  }

  lemma NoPiece()
    ensures NestedParts("\n") == []
  {
    assert "\n"[1..] == "";
  }

  lemma NestedSpells(parts: seq<string>, lines: seq<string>)
    requires Spells(parts, lines)
    ensures Spells(NestedParts(JoinLines(parts) + "\n"), lines)
  {
    hide EndsCleanly, NestedParts;
    if parts == [] {
      NoPiece();
      assert JoinLines(parts) + "\n" == "\n";
    } else {
      JoinUnlines(parts);
      JoinKeepsEnd(parts);
      OnePiece(JoinLines(parts));
      hide Unlines, JoinLines;
    }
  }

  lemma {:induction false} DumpSpells(es: seq<Entry>, indent: nat)
    requires Printable(es)
    ensures Spells(EntriesParts(es, indent), DumpLines(es, indent))
    decreases es, 1
  {
    if es != [] {
      var e := es[0];
      KeySingleLine(e.key);
      var at := 2 * indent;
      match e.value {
        case Leaf(v) =>
          RenderSingleLine(v);
          var line := Pad(indent) + e.key + ": " + RenderScalar(v);
          assert line[at] == e.key[0] && IsKeyChar(e.key[0]);
          OneLineSpells(line, at);
        case Mapping(sub) =>
          var line := Pad(indent) + e.key + ":";
          assert line[at] == e.key[0] && IsKeyChar(e.key[0]);
          OneLineSpells(line, at);
          DumpSpells(sub, indent + 1);
          NestedSpells(EntriesParts(sub, indent + 1), DumpLines(sub, indent + 1));
          SpellsConcat([line], [line], NestedParts(DumpText(sub, indent + 1)), DumpLines(sub, indent + 1));
        case Listing(items) =>
          var line := Pad(indent) + e.key + ":";
          assert line[at] == e.key[0] && IsKeyChar(e.key[0]);
          OneLineSpells(line, at);
          ItemsSpell(items, indent);
          SpellsConcat([line], [line], ItemsParts(items, indent), ItemsLines(items, indent));
      }
      DumpSpells(es[1..], indent);
      SpellsConcat(EntryParts(e, indent), EntryLines(e, indent), EntriesParts(es[1..], indent), DumpLines(es[1..], indent));
    }
  }

  lemma {:induction false} ItemsSpell(items: seq<Item>, indent: nat)
    requires forall i :: 0 <= i < |items| ==> PrintableItem(items[i])
    ensures Spells(ItemsParts(items, indent), ItemsLines(items, indent))
    decreases items, 1
  {
    if items != [] {
      var at := 2 * indent + 2;
      assert PrintableItem(items[0]);
      match items[0] {
        case ScalarItem(v) =>
          RenderSingleLine(v);
          var line := Pad(indent) + "  - " + RenderScalar(v);
          assert line[at] == '-';
          OneLineSpells(line, at);
        case MapItem(sub) =>
          var line := Pad(indent) + "  -";
          assert line[at] == '-';
          OneLineSpells(line, at);
          DumpSpells(sub, indent + 2);
          NestedSpells(EntriesParts(sub, indent + 2), DumpLines(sub, indent + 2));
          SpellsConcat([line], [line], NestedParts(DumpText(sub, indent + 2)), DumpLines(sub, indent + 2));
      }
      ItemsSpell(items[1..], indent);
      SpellsConcat(ItemParts(items[0], indent), ItemLines(items[0], indent),
                   ItemsParts(items[1..], indent), ItemsLines(items[1..], indent));
    }
  }

  /** Splitting the text of a printable tree gives back one line per printed entry or item. */
  lemma DumpSplits(es: seq<Entry>, indent: nat)
    requires Printable(es)
    ensures SplitLines(DumpText(es, indent)) == if es == [] then [""] else DumpLines(es, indent)
  {
    DumpSpells(es, indent);
    DumpLinesSingle(es, indent);
    var parts := EntriesParts(es, indent);
    if es == [] {
      assert DumpText(es, indent) == Unlines([""]) by { assert [""][1..] == []; }
      SplitUnlines([""]);
    } else {
      assert EntryLines(es[0], indent) != [];
      JoinUnlines(parts);
      SplitUnlines(DumpLines(es, indent));
    }
  }

  // ---------------------------------------------------------------- the shape of the text

  /** Lines moved to the right by two spaces. */
  function Shifted(lines: seq<string>): (r: seq<string>)
    ensures |r| == |lines| && forall i :: 0 <= i < |r| ==> r[i] == "  " + lines[i]
  {
    seq(|lines|, i requires 0 <= i < |lines| => "  " + lines[i])
  }

  lemma ShiftedJoin(a: seq<string>, b: seq<string>)
    ensures Shifted(a + b) == Shifted(a) + Shifted(b)
  {
  }

  lemma PadShifts(indent: nat, rest: string)
    ensures Pad(indent + 1) + rest == "  " + (Pad(indent) + rest)
    ensures Pad(0) + rest == rest
  {
    assert Spaces(2 * indent + 2) == " " + (" " + Spaces(2 * indent));
    assert Pad(indent + 1) == "  " + Pad(indent);
  }

  /** One level deeper, every line stands two spaces further to the right. */
  lemma {:induction false} DeeperShifts(es: seq<Entry>, indent: nat)
    ensures DumpLines(es, indent + 1) == Shifted(DumpLines(es, indent))
    decreases es, 0
  {
    if es != [] {
      EntryShifts(es[0], indent);
      DeeperShifts(es[1..], indent);
      ShiftedJoin(EntryLines(es[0], indent), DumpLines(es[1..], indent));
    }
  }

  lemma {:induction false} EntryShifts(e: Entry, indent: nat)
    ensures EntryLines(e, indent + 1) == Shifted(EntryLines(e, indent))
    decreases e, 0
  {
    var head := [Pad(indent) + e.key + ":"];
    HeadShifts(indent, e.key, ":");
    match e.value {
      case Leaf(v) =>
        HeadShifts(indent, e.key, ": " + RenderScalar(v));
        assert Pad(indent) + e.key + ": " + RenderScalar(v) == Pad(indent) + e.key + (": " + RenderScalar(v));
        assert Pad(indent + 1) + e.key + ": " + RenderScalar(v) == Pad(indent + 1) + e.key + (": " + RenderScalar(v));
      case Mapping(sub) =>
        DeeperShifts(sub, indent + 1);
        ShiftedJoin(head, DumpLines(sub, indent + 1));
      case Listing(items) =>
        ItemsShift(items, indent);
        ShiftedJoin(head, ItemsLines(items, indent));
    }
  }

  lemma HeadShifts(indent: nat, key: string, rest: string)
    ensures [Pad(indent + 1) + key + rest] == Shifted([Pad(indent) + key + rest])
  {
    PadShifts(indent, key + rest);
    assert Pad(indent) + key + rest == Pad(indent) + (key + rest);
    assert Pad(indent + 1) + key + rest == Pad(indent + 1) + (key + rest);
  }

  lemma {:induction false} ItemsShift(items: seq<Item>, indent: nat)
    ensures ItemsLines(items, indent + 1) == Shifted(ItemsLines(items, indent))
    decreases items, 0
  {
    if items != [] {
      ItemShifts(items[0], indent);
      ItemsShift(items[1..], indent);
      ShiftedJoin(ItemLines(items[0], indent), ItemsLines(items[1..], indent));
    }
  }

  lemma {:induction false} ItemShifts(item: Item, indent: nat)
    ensures ItemLines(item, indent + 1) == Shifted(ItemLines(item, indent))
    decreases item, 0
  {
    match item {
      case ScalarItem(v) =>
        PadShifts(indent, "  - " + RenderScalar(v));
        assert Pad(indent) + "  - " + RenderScalar(v) == Pad(indent) + ("  - " + RenderScalar(v));
        assert Pad(indent + 1) + "  - " + RenderScalar(v) == Pad(indent + 1) + ("  - " + RenderScalar(v));
      case MapItem(sub) =>
        PadShifts(indent, "  -");
        var head := [Pad(indent) + "  -"];
        assert Shifted(head) == [Pad(indent + 1) + "  -"];
        DeeperShifts(sub, indent + 2);
        ShiftedJoin(head, DumpLines(sub, indent + 2));
    }
  }

  lemma OneEntry(e: Entry)
    ensures DumpLines([e], 0) == EntryLines(e, 0)
  {
    assert [e][1..] == [];
  }

  lemma Flush(a: string, b: string)
    ensures Pad(0) + a + b == a + b
  {
    assert Pad(0) + a == a;
  }

  /** The lines of one entry: a value behind its key, or the lines of what is nested two spaces further in. */
  lemma EntryForms(key: string, v: Scalar, es: seq<Entry>, items: seq<Item>)
    ensures DumpLines([Entry(key, Leaf(v))], 0) == [key + ": " + RenderScalar(v)]
    ensures DumpLines([Entry(key, Mapping(es))], 0) == [key + ":"] + Shifted(DumpLines(es, 0))
    ensures DumpLines([Entry(key, Listing(items))], 0) == [key + ":"] + ItemsLines(items, 0)
  {
    OneEntry(Entry(key, Leaf(v)));
    OneEntry(Entry(key, Mapping(es)));
    OneEntry(Entry(key, Listing(items)));
    Flush(key, ": ");
    Flush(key, ":");
    DeeperShifts(es, 0);
    hide Pad, DumpLines, ItemsLines;
  }

  /** The lines of list items: each has its dash, and a mapping its lines four spaces further in. */
  lemma ItemForms(v: Scalar, es: seq<Entry>, items: seq<Item>)
    ensures ItemsLines([ScalarItem(v)] + items, 0) == ["  - " + RenderScalar(v)] + ItemsLines(items, 0)
    ensures ItemsLines([MapItem(es)] + items, 0) == ["  -"] + Shifted(Shifted(DumpLines(es, 0))) + ItemsLines(items, 0)
    ensures ItemsLines([], 0) == []
  {
    Flush("  - ", RenderScalar(v));
    Flush("  -", "");
    assert Pad(0) + "  -" == "  -";
    DeeperShifts(es, 0);
    DeeperShifts(es, 1);
    assert ([ScalarItem(v)] + items)[1..] == items && ([MapItem(es)] + items)[1..] == items;
    hide Pad, DumpLines, RenderScalar;
  }
}
