/** Reading what was written: the parser follows the printer's recursion container by container. */
module ConfigRoundTrip {
  import opened PythonText
  import opened ConfigScalars
  import opened ConfigValues
  import opened ConfigPrinter
  import opened ConfigParser
  import opened ConfigInvariant

  // ---------------------------------------------------------------- running the parser on printed lines

  /** The parser adds exactly what the printed entries read back as. */
  lemma {:induction false} RunEntries(s: State, base: seq<Frame>, es: seq<Entry>, indent: nat)
    requires Inside(s, base, 2 * indent, true) && Printable(es) && NewKeys(s.store, Innermost(base), es)
    ensures Adds(s, Run(s, DumpLines(es, indent)), base, 2 * indent, ReadBack(es))
    decreases es, 1
  {
    if es != [] {
      var lines, rest := EntryLines(es[0], indent), es[1..];
      RunConcat(s, lines, DumpLines(rest, indent));
      RunEntry(s, base, es[0], indent);
      var mid := Run(s, lines);
      var first := Entry(es[0].key, ReadBackValue(es[0].value));
      StillNew(s, mid, base, 2 * indent, es[0], first.value, rest);
      RunEntries(mid, base, rest, indent);
      AddsTwice(s, mid, Run(mid, DumpLines(rest, indent)), base, 2 * indent, [first], ReadBack(rest));
    }
  }

  lemma {:induction false} RunEntry(s: State, base: seq<Frame>, e: Entry, indent: nat)
    requires Inside(s, base, 2 * indent, true)
    requires LegalKey(e.key) && PrintableValue(e.value) && NewKey(s.store, Innermost(base), e.key)
    ensures Adds(s, Run(s, EntryLines(e, indent)), base, 2 * indent, [Entry(e.key, ReadBackValue(e.value))])
    decreases e, 0
  {
    match e.value {
      case Leaf(v) => RunLeaf(s, base, e.key, v, indent);
      case Mapping(sub) => RunMapping(s, base, e.key, sub, indent);
      case Listing(items) => RunListing(s, base, e.key, items, indent);
    }
  }

  lemma RunOne(s: State, line: string)
    requires Valid(s)
    ensures Run(s, [line]) == Step(s, line)
  {
    assert [line][1..] == [];
  }

  lemma RunLeaf(s: State, base: seq<Frame>, key: string, v: Scalar, indent: nat)
    requires Inside(s, base, 2 * indent, true) && LegalKey(key) && NewKey(s.store, Innermost(base), key)
    ensures Adds(s, Run(s, [Pad(indent) + key + ": " + RenderScalar(v)]), base, 2 * indent,
                 [Entry(key, ReadBackValue(Leaf(v)))])
  {
    var d := Innermost(base);
    var tail := " " + RenderScalar(v);
    var line := Pad(indent) + key + ": " + RenderScalar(v);
    assert line == Pad(indent) + key + ":" + tail;
    StripAfterBlank(RenderScalar(v));
    RunOne(s, line);
    if Strip(tail) == "" {
      StepOpens(s, base, key, tail, indent);
      OpenedAdds(s, base, key, 2 * indent);
    } else {
      StepLeaf(s, base, key, tail, indent);
      FieldAppended(s.store, Step(s, line).store, d, key, Plainly(ParseScalar(Strip(tail))), ReadBackValue(Leaf(v)));
    }
  }

  /** After a key line without a value, the remaining lines run from the opened state. */
  lemma RunOpens(s: State, base: seq<Frame>, key: string, lines: seq<string>, indent: nat)
    requires Inside(s, base, 2 * indent, true) && LegalKey(key) && NewKey(s.store, Innermost(base), key)
    ensures Valid(Opened(s, base, key, 2 * indent))
    ensures Run(s, [Pad(indent) + key + ":"] + lines) == Run(Opened(s, base, key, 2 * indent), lines)
  {
    var line := Pad(indent) + key + ":";
    assert line == Pad(indent) + key + ":" + "";
    StepOpens(s, base, key, "", indent);
    assert ([line] + lines)[1..] == lines;
  }

  lemma {:induction false} RunMapping(s: State, base: seq<Frame>, key: string, sub: seq<Entry>, indent: nat)
    requires Inside(s, base, 2 * indent, true)
    requires LegalKey(key) && Printable(sub) && NewKey(s.store, Innermost(base), key)
    ensures Adds(s, Run(s, [Pad(indent) + key + ":"] + DumpLines(sub, indent + 1)), base, 2 * indent,
                 [Entry(key, Mapping(ReadBack(sub)))])
    decreases sub, 3
  {
    RunOpens(s, base, key, DumpLines(sub, indent + 1), indent);
    FillMapping(s, Opened(s, base, key, 2 * indent), base, key, sub, indent);
  }

  lemma {:induction false} FillMapping(s: State, mid: State, base: seq<Frame>, key: string, sub: seq<Entry>, indent: nat)
    requires Inside(s, base, 2 * indent, true) && Printable(sub)
    requires Valid(mid) && mid == Opened(s, base, key, 2 * indent)
    ensures Adds(s, Run(mid, DumpLines(sub, indent + 1)), base, 2 * indent, [Entry(key, Mapping(ReadBack(sub)))])
    decreases sub, 2
  {
    hide *;
    var n := 2 * indent;
    var inner := base + [Frame(n + 2, |s.store|)];
    OpenedInside(s, mid, base, key, n, sub);
    RunEntries(mid, inner, sub, indent + 1);
    FilledAdds(s, mid, Run(mid, DumpLines(sub, indent + 1)), base, inner, key, n, ReadBack(sub));
  }

  /** The text after the dash of an item's first line. */
  function DashTail(item: Item): string {
    match item case ScalarItem(v) => " " + RenderScalar(v) case MapItem(_) => ""
  }

  lemma ItemFirstLine(items: seq<Item>, indent: nat)
    requires items != []
    ensures ItemsLines(items, indent) != []
    ensures ItemsLines(items, indent)[0] == Spaces(2 * indent + 2) + "-" + DashTail(items[0])
  {
    PadDash(indent);
    var first := ItemLines(items[0], indent);
    assert ItemsLines(items, indent) == first + ItemsLines(items[1..], indent);
    assert first[0] == Pad(indent) + "  -" + DashTail(items[0]);
  }

  /** The first dash under a key acts as if the list had been there already. */
  lemma FirstItemPromotes(s: State, base: seq<Frame>, key: string, items: seq<Item>, indent: nat)
    requires Inside(s, base, 2 * indent, true) && LegalKey(key) && NewKey(s.store, Innermost(base), key) && items != []
    requires Valid(Opened(s, base, key, 2 * indent))
    ensures Valid(Listed(s, base, key, 2 * indent))
    ensures Run(Opened(s, base, key, 2 * indent), ItemsLines(items, indent))
         == Run(Listed(s, base, key, 2 * indent), ItemsLines(items, indent))
  {
    var lines, n := ItemsLines(items, indent), 2 * indent + 2;
    var open, list := Opened(s, base, key, 2 * indent), Listed(s, base, key, 2 * indent);
    PromotedIsListed(s, base, key, 2 * indent);
    ItemFirstLine(items, indent);
    DashLine(n, DashTail(items[0]));
    assert Pop(open, n) == open && Pop(list, n) == list;
    assert Step(open, lines[0]) == Step(list, lines[0]);
  }

  lemma {:induction false} RunListing(s: State, base: seq<Frame>, key: string, items: seq<Item>, indent: nat)
    requires Inside(s, base, 2 * indent, true) && LegalKey(key) && NewKey(s.store, Innermost(base), key)
    requires forall i :: 0 <= i < |items| ==> PrintableItem(items[i])
    ensures Adds(s, Run(s, [Pad(indent) + key + ":"] + ItemsLines(items, indent)), base, 2 * indent,
                 [Entry(key, ReadBackValue(Listing(items)))])
    decreases items, 2
  {
    var lines, n := ItemsLines(items, indent), 2 * indent;
    RunOpens(s, base, key, lines, indent);
    if items == [] {
      OpenedAdds(s, base, key, n);
    } else {
      FirstItemPromotes(s, base, key, items, indent);
      var list := Listed(s, base, key, n);
      RunItems(list, list.stack, items, indent);
      ListedAdds(s, Run(list, lines), base, key, n, ReadBackItems(items));
    }
  }

  lemma {:induction false} SpacesSnoc(n: nat)
    ensures Spaces(n) + " " == Spaces(n + 1)
  {
    if n > 0 {
      SpacesSnoc(n - 1);
      assert Spaces(n) + " " == " " + (Spaces(n - 1) + " ");
    }
  }

  lemma PadDash(indent: nat)
    ensures Pad(indent) + "  -" == Spaces(2 * indent + 2) + "-"
  {
    SpacesSnoc(2 * indent);
    SpacesSnoc(2 * indent + 1);
    assert Pad(indent) + "  -" == Pad(indent) + " " + " " + "-";
  }

  /** The parser adds exactly what the printed items read back as. */
  lemma {:induction false} RunItems(s: State, base: seq<Frame>, items: seq<Item>, indent: nat)
    requires Inside(s, base, 2 * indent + 2, false)
    requires forall i :: 0 <= i < |items| ==> PrintableItem(items[i])
    ensures AddsItems(s, Run(s, ItemsLines(items, indent)), base, 2 * indent + 2, ReadBackItems(items))
    decreases items, 1
  {
    if items != [] {
      var lines, rest := ItemLines(items[0], indent), items[1..];
      RunConcat(s, lines, ItemsLines(rest, indent));
      assert PrintableItem(items[0]);
      RunItem(s, base, items[0], indent);
      var mid := Run(s, lines);
      RunItems(mid, base, rest, indent);
      AddsItemsTwice(s, mid, Run(mid, ItemsLines(rest, indent)), base, 2 * indent + 2,
                     [ReadBackItem(items[0])], ReadBackItems(rest));
    }
  }

  lemma StepDash(s: State, base: seq<Frame>, n: nat, tail: string)
    requires Inside(s, base, n, false)
    ensures var r := Step(s, Spaces(n) + "-" + tail);
            var text := Strip(tail);
            var items := s.store[Innermost(base)].items;
            if text == "" || EndsInColon(text) then
              r == OpenedItem(s, base, n).(pending := r.pending)
            else
              r == State(s.store[Innermost(base) := ListNode(items + [Plainly(ParseScalar(text))])], base, r.pending)
  {
    DashLine(n, tail);
    PopTo(s, base, n);
  }

  lemma {:induction false} RunItem(s: State, base: seq<Frame>, item: Item, indent: nat)
    requires Inside(s, base, 2 * indent + 2, false) && PrintableItem(item)
    ensures AddsItems(s, Run(s, ItemLines(item, indent)), base, 2 * indent + 2, [ReadBackItem(item)])
    decreases item, 0
  {
    match item {
      case ScalarItem(v) => RunScalarItem(s, base, v, indent);
      case MapItem(sub) => RunMapItem(s, base, sub, indent);
    }
  }

  /** After a bare dash, the remaining lines run from the state with the new mapping open. */
  lemma StepOpensItem(s: State, base: seq<Frame>, indent: nat)
    requires Inside(s, base, 2 * indent + 2, false)
    ensures var mid := Step(s, Pad(indent) + "  -");
            mid == OpenedItem(s, base, 2 * indent + 2).(pending := mid.pending)
  {
    hide *;
    PadDash(indent);
    StripEmpty();
    assert Spaces(2 * indent + 2) + "-" + "" == Spaces(2 * indent + 2) + "-";
    StepDash(s, base, 2 * indent + 2, "");
  }

  lemma StripEmpty()
    ensures Strip("") == ""
  {
  }

  lemma {:induction false} RunMapItem(s: State, base: seq<Frame>, sub: seq<Entry>, indent: nat)
    requires Inside(s, base, 2 * indent + 2, false) && Printable(sub)
    ensures AddsItems(s, Run(s, [Pad(indent) + "  -"] + DumpLines(sub, indent + 2)), base, 2 * indent + 2,
                      [MapItem(ReadBack(sub))])
    decreases sub, 3
  {
    var line := Pad(indent) + "  -";
    StepOpensItem(s, base, indent);
    RunOne(s, line);
    RunConcat(s, [line], DumpLines(sub, indent + 2));
    FillItem(s, Step(s, line), base, sub, indent);
  }

  lemma {:induction false} FillItem(s: State, mid: State, base: seq<Frame>, sub: seq<Entry>, indent: nat)
    requires Inside(s, base, 2 * indent + 2, false) && Printable(sub)
    requires Valid(mid) && mid == OpenedItem(s, base, 2 * indent + 2).(pending := mid.pending)
    ensures AddsItems(s, Run(mid, DumpLines(sub, indent + 2)), base, 2 * indent + 2, [MapItem(ReadBack(sub))])
    decreases sub, 2
  {
    hide *;
    var n := 2 * indent + 2;
    var inner := base + [Frame(n + 2, |s.store|)];
    OpenedItemInside(s, mid, base, n, sub);
    RunEntries(mid, inner, sub, indent + 2);
    ItemFilled(s, mid, Run(mid, DumpLines(sub, indent + 2)), base, inner, n, ReadBack(sub));
  }

  /** A list has got a new and empty mapping, which is on the stack. */
  lemma DashOpens(s: State, r: State, base: seq<Frame>, n: nat)
    requires Inside(s, base, n, false) && Valid(r) && r == OpenedItem(s, base, n).(pending := r.pending)
    ensures AddsItems(s, r, base, n, [MapItem([])])
  {
    ItemAppended(s.store, r.store, Innermost(base), Handle(|s.store|), MapItem([]));
  }

  /** A list has got a scalar. */
  lemma DashAppends(s: State, r: State, base: seq<Frame>, n: nat, v: Scalar)
    requires Inside(s, base, n, false) && Valid(r)
    requires r == State(s.store[Innermost(base) := ListNode(s.store[Innermost(base)].items + [Plainly(v)])], base, r.pending)
    ensures AddsItems(s, r, base, n, [ScalarItem(v)])
  {
    ItemAppended(s.store, r.store, Innermost(base), Plainly(v), ScalarItem(v));
  }

  lemma RunScalarItem(s: State, base: seq<Frame>, v: Scalar, indent: nat)
    requires Inside(s, base, 2 * indent + 2, false)
    ensures AddsItems(s, Run(s, [Pad(indent) + "  - " + RenderScalar(v)]), base, 2 * indent + 2,
                      [ReadBackItem(ScalarItem(v))])
  {
    var n, tail := 2 * indent + 2, " " + RenderScalar(v);
    var line := Pad(indent) + "  - " + RenderScalar(v);
    PadDash(indent);
    assert line == Spaces(n) + "-" + tail;
    var text, r := Strip(tail), Step(s, line);
    assert ReadBackItem(ScalarItem(v))
        == if Strip(RenderScalar(v)) == "" || EndsInColon(Strip(RenderScalar(v))) then MapItem([])
           else ScalarItem(ParseScalar(Strip(RenderScalar(v))));
    assert Inside(s, base, n, false) && Valid(s);
    hide *;
    RunOne(s, line);
    StepDash(s, base, n, tail);
    StripAfterBlank(RenderScalar(v));
    if text == "" || EndsInColon(text) {
      DashOpens(s, r, base, n);
    } else {
      DashAppends(s, r, base, n, ParseScalar(text));
    }
  }

  // ---------------------------------------------------------------- main theorems

  /** Reading a printed tree: every printable tree, at any depth. */
  lemma ParsePrinted(es: seq<Entry>)
    requires Printable(es)
    ensures ParseText(DumpText(es, 0)) == ReadBack(es)
  {
    DumpSplits(es, 0);
    StartIsValid();
    if es == [] {
      RunOne(Start, "");
    } else {
      RunEntries(Start, Start.stack, es, 0);
      assert Contents(Start.store, 0) == [];
    }
  }

  // Whatever the text, the parser produces keys it could match and single-line strings.

  predicate CleanRef(r: Ref) {
    r.Plainly? ==> SingleLineScalar(r.v)
  }

  predicate CleanNode(node: Node) {
    match node
    case MapNode(fields) => forall i :: 0 <= i < |fields| ==> CleanRef(fields[i].value)
    case ListNode(items) => forall i :: 0 <= i < |items| ==> CleanRef(items[i])
  }

  predicate CleanStore(store: seq<Node>) {
    forall id :: 0 <= id < |store| ==> CleanNode(store[id])
  }

  lemma StepKeepsClean(s: State, raw: string)
    requires Valid(s) && CleanStore(s.store) && SingleLine(raw)
    ensures CleanStore(Step(s, raw).store)
  {
    if !Skipped(raw) {
      var indent := LeadingSpaces(raw);
      var line := Strip(raw);
      var popped := Pop(s, indent);
      if line[0] == '-' {
        match OpenList(popped, indent) {
          case None =>
          case Some(open) =>
            PromoteKeepsClean(popped, indent);
            AppendKeepsClean(open, indent, Strip(line[1..]));
        }
      } else if MatchKeyValue(line).Some? {
        var (key, value) := MatchKeyValue(line).value;
        MatchedKeyIsLegal(line);
        KeyKeepsClean(popped, indent, key, value);
      }
    }
  }

  lemma PromoteKeepsClean(s: State, indent: nat)
    requires Valid(s) && CleanStore(s.store) && TopIndent(s) <= indent && OpenList(s, indent).Some?
    ensures CleanStore(OpenList(s, indent).value.store)
  {
  }

  lemma AppendKeepsClean(s: State, indent: nat, text: string)
    requires Valid(s) && CleanStore(s.store) && TopIndent(s) <= indent && s.store[Top(s)].ListNode? && SingleLine(text)
    ensures CleanStore(AppendItem(s, indent, text).store)
  {
    assert CleanNode(s.store[Top(s)]);
  }

  lemma KeyKeepsClean(s: State, indent: nat, key: string, value: string)
    requires Valid(s) && CleanStore(s.store) && TopIndent(s) <= indent && LegalKey(key) && SingleLine(value)
    ensures CleanStore(StepKey(s, indent, key, value).store)
  {
    assert CleanNode(s.store[Top(s)]);
  }

  lemma {:induction false} RunKeepsClean(s: State, lines: seq<string>)
    requires Valid(s) && CleanStore(s.store) && AllSingleLine(lines)
    ensures CleanStore(Run(s, lines).store)
    decreases |lines|
  {
    if lines != [] {
      StepKeepsClean(s, lines[0]);
      RunKeepsClean(Step(s, lines[0]), lines[1..]);
    }
  }

  lemma {:induction false} CleanFieldsRead(store: seq<Node>, fields: seq<Field>, low: nat)
    requires StoreOk(store) && CleanStore(store) && low < |store| && FieldsAbove(store, fields, low)
    requires DistinctFields(fields) && forall i :: 0 <= i < |fields| ==> LegalKey(fields[i].key) && CleanRef(fields[i].value)
    ensures Printable(ReadFields(store, fields, low))
    decreases |store| - low, |fields|
  {
    if fields != [] {
      var front, last := fields[..|fields| - 1], fields[|fields| - 1];
      CleanFieldsRead(store, front, low);
      if last.value.Handle? { CleanNodeReads(store, last.value.id, low); }
    }
  }

  lemma {:induction false} CleanNodeReads(store: seq<Node>, id: nat, low: nat)
    requires StoreOk(store) && CleanStore(store) && low < id < |store|
    ensures PrintableValue(ReadRef(store, Handle(id), low))
    decreases |store| - low, 0
  {
    assert NodeOk(store, id) && CleanNode(store[id]);
    match store[id] {
      case MapNode(fields) => CleanFieldsRead(store, fields, id);
      case ListNode(items) => CleanItemsRead(store, items, id);
    }
  }

  lemma {:induction false} CleanItemsRead(store: seq<Node>, items: seq<Ref>, low: nat)
    requires StoreOk(store) && CleanStore(store) && low < |store| && ItemsAbove(store, items, low)
    requires forall i :: 0 <= i < |items| ==> CleanRef(items[i])
    ensures forall i :: 0 <= i < |items| ==> PrintableItem(ReadItems(store, items, low)[i])
    decreases |store| - low, |items|
  {
    if items != [] {
      var front, last := items[..|items| - 1], items[|items| - 1];
      CleanItemsRead(store, front, low);
      if last.Handle? {
        assert NodeOk(store, last.id) && CleanNode(store[last.id]);
        CleanFieldsRead(store, store[last.id].fields, last.id);
      }
    }
  }

  /** Every text whatsoever is read as a printable tree. */
  lemma ParsedIsPrintable(text: string)
    ensures Printable(ParseText(text))
  {
    StartIsValid();
    var lines := SplitLines(text);
    RunKeepsClean(Start, lines);
    var s := Run(Start, lines);
    assert NodeOk(s.store, 0) && CleanNode(s.store[0]);
    CleanFieldsRead(s.store, s.store[0].fields, 0);
  }

  /** A tree survives being written and read exactly when it is plain. */
  lemma RoundTripExactlyPlain(es: seq<Entry>)
    ensures ParseText(DumpText(es, 0)) == es <==> Plain(es)
  {
    if Printable(es) {
      ParsePrinted(es);
      ReadBackFixed(es);
    } else {
      ParsedIsPrintable(DumpText(es, 0));
      if Plain(es) { PlainIsPrintable(es); }
    }
  }
}
