/** What one printed line, and one printed container, does to the parser's state. */
module ConfigInvariant {
  import opened Options
  import opened PythonText
  import opened ConfigScalars
  import opened ConfigValues
  import opened ConfigPrinter
  import opened ConfigParser

  // ---------------------------------------------------------------- single lines

  lemma {:induction false} KeyPrefixOf(key: string, rest: string)
    requires forall i :: 0 <= i < |key| ==> IsKeyChar(key[i])
    ensures KeyPrefix(key + ":" + rest) == |key|
  {
    if key == "" {
      assert (key + ":" + rest)[0] == ':';
    } else {
      assert (key + ":" + rest)[1..] == key[1..] + ":" + rest;
      KeyPrefixOf(key[1..], rest);
    }
  }

  lemma StripLine(n: nat, head: string, tail: string)
    requires head != "" && !IsSpace(head[0]) && !IsSpace(head[|head| - 1])
    ensures LStrip(Spaces(n) + head + tail) == head + tail
    ensures Strip(Spaces(n) + head + tail) == head + RStrip(tail)
    ensures LeadingSpaces(Spaces(n) + head + tail) == n
  {
    assert Spaces(n) + head + tail == Spaces(n) + (head + tail);
    LStripSpaces(n, head + tail);
    RStripAfter(head, tail);
  }

  lemma StripAfterBlank(text: string)
    ensures Strip(" " + text) == Strip(text)
  {
    assert (" " + text)[1..] == text;
  }

  /** How the parser sees the line of a mapping entry. */
  lemma KeyLine(n: nat, key: string, tail: string)
    requires LegalKey(key)
    ensures var raw := Spaces(n) + key + ":" + tail;
            && !Skipped(raw) && LeadingSpaces(raw) == n && Strip(raw)[0] != '-'
            && MatchKeyValue(Strip(raw)) == Some((key, Strip(tail)))
  {
    var raw := Spaces(n) + key + ":" + tail;
    assert raw == Spaces(n) + (key + ":") + tail;
    assert IsKeyChar(key[0]);
    StripLine(n, key + ":", tail);
    assert key + ":" + RStrip(tail) == (key + ":") + RStrip(tail);
    hide Strip, RStrip, LStrip, LegalKey;
    KeyMatches(key, RStrip(tail));
    StripRStrip(tail);
  }

  lemma KeyMatches(key: string, rest: string)
    requires LegalKey(key)
    ensures MatchKeyValue(key + ":" + rest) == Some((key, Strip(rest)))
  {
    KeyPrefixOf(key, rest);
    var line := key + ":" + rest;
    assert line[|key| + 1..] == rest && line[..|key|] == key;
    hide Strip;
  }

  /** How the parser sees the line of a list item. */
  lemma DashLine(n: nat, tail: string)
    ensures var raw := Spaces(n) + "-" + tail;
            && !Skipped(raw) && LeadingSpaces(raw) == n
            && Strip(raw)[0] == '-' && Strip(Strip(raw)[1..]) == Strip(tail)
  {
    StripLine(n, "-", tail);
    assert ("-" + RStrip(tail))[1..] == RStrip(tail);
    StripRStrip(tail);
  }

  // ---------------------------------------------------------------- the stack against the recursion

  /** The containers in `base` are open for lines at this indent; everything above is deeper. */
  predicate At(s: State, base: seq<Frame>, indent: nat) {
    && base != [] && base <= s.stack && base[|base| - 1].indent <= indent
    && forall i :: |base| <= i < |s.stack| ==> s.stack[i].indent > indent
  }

  function Innermost(base: seq<Frame>): nat
    requires base != []
  {
    base[|base| - 1].id
  }

  lemma {:induction false} PopTo(s: State, base: seq<Frame>, indent: nat)
    requires Valid(s) && At(s, base, indent)
    ensures Pop(s, indent).stack == base
    ensures s.stack == base ==> Pop(s, indent) == s
    decreases |s.stack|
  {
    if |s.stack| > |base| {
      var t := s.(stack := s.stack[..|s.stack| - 1], pending := None);
      assert indent < TopIndent(s);
      assert Valid(t);
      PopTo(t, base, indent);
    }
  }

  /** Nothing but node `d` changed among the nodes that were there; new ones may have appeared. */
  predicate OnlyGrows(before: seq<Node>, after: seq<Node>, d: nat) {
    |before| <= |after| && forall j :: 0 <= j < |before| && j != d ==> after[j] == before[j]
  }

  function Contents(store: seq<Node>, d: nat): seq<Entry>
    requires StoreOk(store) && d < |store| && store[d].MapNode?
  {
    assert NodeOk(store, d);
    ReadFields(store, store[d].fields, d)
  }

  function ListContents(store: seq<Node>, d: nat): seq<Item>
    requires StoreOk(store) && d < |store| && store[d].ListNode?
  {
    assert NodeOk(store, d);
    ReadItems(store, store[d].items, d)
  }

  predicate AgreeAbove(before: seq<Node>, after: seq<Node>, low: nat) {
    |before| <= |after| && forall j :: low < j < |before| ==> after[j] == before[j]
  }

  /** Reading a container is unaffected by changes to older nodes and by new nodes. */
  lemma {:induction false} FieldsFrame(a: seq<Node>, b: seq<Node>, fields: seq<Field>, low: nat)
    requires StoreOk(a) && StoreOk(b) && low < |a| && AgreeAbove(a, b, low) && FieldsAbove(a, fields, low)
    ensures ReadFields(a, fields, low) == ReadFields(b, fields, low)
    decreases |a| - low, |fields|
  {
    if fields != [] {
      FieldsFrame(a, b, fields[..|fields| - 1], low);
      RefFrame(a, b, fields[|fields| - 1].value, low);
    }
  }

  lemma {:induction false} RefFrame(a: seq<Node>, b: seq<Node>, r: Ref, low: nat)
    requires StoreOk(a) && StoreOk(b) && low < |a| && AgreeAbove(a, b, low) && (r.Handle? ==> low < r.id < |a|)
    ensures ReadRef(a, r, low) == ReadRef(b, r, low)
    decreases |a| - low, 0
  {
    if r.Handle? {
      assert NodeOk(a, r.id);
      match a[r.id] {
        case MapNode(fields) => FieldsFrame(a, b, fields, r.id);
        case ListNode(items) => ItemsFrame(a, b, items, r.id);
      }
    }
  }

  lemma {:induction false} ItemsFrame(a: seq<Node>, b: seq<Node>, items: seq<Ref>, low: nat)
    requires StoreOk(a) && StoreOk(b) && low < |a| && AgreeAbove(a, b, low) && ItemsAbove(a, items, low)
    ensures ItemsAbove(b, items, low) && ReadItems(a, items, low) == ReadItems(b, items, low)
    decreases |a| - low, |items|
  {
    if items != [] {
      ItemsFrame(a, b, items[..|items| - 1], low);
      var last := items[|items| - 1];
      if last.Handle? {
        assert NodeOk(a, last.id);
        FieldsFrame(a, b, a[last.id].fields, last.id);
      }
    }
  }

  /** The value stored under a handle does not depend on where the handle is kept. */
  lemma HandleReads(store: seq<Node>, id: nat, low: nat)
    requires StoreOk(store) && low < id < |store|
    ensures ReadRef(store, Handle(id), low)
         == if store[id].MapNode? then Mapping(Contents(store, id)) else Listing(ListContents(store, id))
  {
  }

  // ---------------------------------------------------------------- running the parser on printed lines

  predicate NewKey(store: seq<Node>, d: nat, key: string)
    requires d < |store| && store[d].MapNode?
  {
    forall i :: 0 <= i < |store[d].fields| ==> store[d].fields[i].key != key
  }

  /** One field was appended to node `d`, and it reads as `value`. */
  lemma FieldAppended(a: seq<Node>, b: seq<Node>, d: nat, key: string, r: Ref, value: Value)
    requires StoreOk(a) && StoreOk(b) && d < |a| && OnlyGrows(a, b, d)
    requires a[d].MapNode? && b[d] == MapNode(a[d].fields + [Field(key, r)])
    requires r.Handle? ==> d < r.id < |b|
    requires ReadRef(b, r, d) == value
    ensures Contents(b, d) == Contents(a, d) + [Entry(key, value)]
  {
    assert NodeOk(a, d) && NodeOk(b, d);
    var fields := a[d].fields;
    assert b[d].fields[..|fields|] == fields;
    FieldsFrame(a, b, fields, d);
  }

  lemma ItemAppended(a: seq<Node>, b: seq<Node>, d: nat, r: Ref, item: Item)
    requires StoreOk(a) && StoreOk(b) && d < |a| && OnlyGrows(a, b, d)
    requires a[d].ListNode? && b[d] == ListNode(a[d].items + [r])
    requires r.Handle? ==> d < r.id < |b| && b[r.id].MapNode?
    requires ReadItem(b, r, d) == item
    ensures ListContents(b, d) == ListContents(a, d) + [item]
  {
    assert NodeOk(a, d) && NodeOk(b, d);
    var items := a[d].items;
    assert b[d].items[..|items|] == items;
    ItemsFrame(a, b, items, d);
  }

  lemma PutNew(fields: seq<Field>, key: string, r: Ref)
    requires forall i :: 0 <= i < |fields| ==> fields[i].key != key
    ensures Put(fields, key, r) == fields + [Field(key, r)]
  {
  }

  /** The state after the line of an entry that opens a container. */
  function Opened(s: State, base: seq<Frame>, key: string, n: nat): State
    requires base != [] && Innermost(base) < |s.store| && s.store[Innermost(base)].MapNode?
  {
    var d := Innermost(base);
    var made := |s.store|;
    State(s.store[d := MapNode(s.store[d].fields + [Field(key, Handle(made))])] + [MapNode([])],
          base + [Frame(n + 2, made)], Some(Pending(d, key)))
  }

  lemma StepOpens(s: State, base: seq<Frame>, key: string, tail: string, indent: nat)
    requires Valid(s) && At(s, base, 2 * indent) && Innermost(base) < |s.store| && s.store[Innermost(base)].MapNode?
    requires LegalKey(key) && NewKey(s.store, Innermost(base), key) && Strip(tail) == ""
    ensures Step(s, Pad(indent) + key + ":" + tail) == Opened(s, base, key, 2 * indent)
  {
    KeyLine(2 * indent, key, tail);
    PopTo(s, base, 2 * indent);
    PutNew(s.store[Innermost(base)].fields, key, Handle(|s.store|));
  }

  lemma StepLeaf(s: State, base: seq<Frame>, key: string, tail: string, indent: nat)
    requires Valid(s) && At(s, base, 2 * indent) && Innermost(base) < |s.store| && s.store[Innermost(base)].MapNode?
    requires LegalKey(key) && NewKey(s.store, Innermost(base), key) && Strip(tail) != ""
    ensures var d := Innermost(base);
            var changed := MapNode(s.store[d].fields + [Field(key, Plainly(ParseScalar(Strip(tail))))]);
            Step(s, Pad(indent) + key + ":" + tail) == State(s.store[d := changed], base, None)
  {
    KeyLine(2 * indent, key, tail);
    PopTo(s, base, 2 * indent);
    PutNew(s.store[Innermost(base)].fields, key, Plainly(ParseScalar(Strip(tail))));
  }

  /** A container of the given kind is innermost at this indent. */
  predicate Inside(s: State, base: seq<Frame>, indent: nat, mapping: bool) {
    && Valid(s) && At(s, base, indent) && Innermost(base) < |s.store|
    && (s.store[Innermost(base)].MapNode? <==> mapping)
  }

  /** From `s` to `r` the innermost mapping gained the entries `more`, and nothing else that was there changed. */
  predicate Adds(s: State, r: State, base: seq<Frame>, indent: nat, more: seq<Entry>)
  {
    && Inside(s, base, indent, true) && Inside(r, base, indent, true)
    && OnlyGrows(s.store, r.store, Innermost(base))
    && Contents(r.store, Innermost(base)) == Contents(s.store, Innermost(base)) + more
  }

  predicate AddsItems(s: State, r: State, base: seq<Frame>, indent: nat, more: seq<Item>)
  {
    && Inside(s, base, indent, false) && Inside(r, base, indent, false)
    && OnlyGrows(s.store, r.store, Innermost(base))
    && ListContents(r.store, Innermost(base)) == ListContents(s.store, Innermost(base)) + more
  }

  predicate NewKeys(store: seq<Node>, d: nat, es: seq<Entry>)
    requires d < |store| && store[d].MapNode?
  {
    forall i :: 0 <= i < |es| ==> NewKey(store, d, es[i].key)
  }

  lemma StillNew(s: State, mid: State, base: seq<Frame>, indent: nat, e: Entry, value: Value, rest: seq<Entry>)
    requires Adds(s, mid, base, indent, [Entry(e.key, value)])
    requires NewKeys(s.store, Innermost(base), rest)
    requires forall i :: 0 <= i < |rest| ==> rest[i].key != e.key
    ensures NewKeys(mid.store, Innermost(base), rest)
  {
    var d := Innermost(base);
    var before, after := Contents(s.store, d), Contents(mid.store, d);
    forall i | 0 <= i < |rest|
      ensures NewKey(mid.store, d, rest[i].key)
    {
      forall k | 0 <= k < |mid.store[d].fields|
        ensures mid.store[d].fields[k].key != rest[i].key
      {
        assert after[k].key == mid.store[d].fields[k].key;
        if k < |before| { assert before[k].key == s.store[d].fields[k].key; }
      }
    }
  }

  lemma AddsTwice(s: State, mid: State, r: State, base: seq<Frame>, indent: nat, a: seq<Entry>, b: seq<Entry>)
    requires Adds(s, mid, base, indent, a) && Adds(mid, r, base, indent, b)
    ensures Adds(s, r, base, indent, a + b)
  {
    var before := Contents(s.store, Innermost(base));
    assert before + a + b == before + (a + b);
  }

  lemma AddsItemsTwice(s: State, mid: State, r: State, base: seq<Frame>, indent: nat, a: seq<Item>, b: seq<Item>)
    requires AddsItems(s, mid, base, indent, a) && AddsItems(mid, r, base, indent, b)
    ensures AddsItems(s, r, base, indent, a + b)
  {
    var before := ListContents(s.store, Innermost(base));
    assert before + a + b == before + (a + b);
  }

  /** A container opened deeper leaves the outer one innermost at its own indent. */
  lemma StillAt(r: State, base: seq<Frame>, above: seq<Frame>, n: nat, deeper: nat)
    requires base != [] && base[|base| - 1].indent <= n < deeper
    requires forall i :: 0 <= i < |above| ==> above[i].indent > n
    requires At(r, base + above, deeper)
    ensures At(r, base, n)
  {
    forall i | |base| <= i < |r.stack|
      ensures r.stack[i].indent > n
    {
      if i < |base + above| { assert r.stack[i] == above[i - |base|]; }
    }
  }

  /** A key line without a value adds an empty mapping. */
  lemma OpenedAdds(s: State, base: seq<Frame>, key: string, n: nat)
    requires Inside(s, base, n, true) && Valid(Opened(s, base, key, n))
    ensures Adds(s, Opened(s, base, key, n), base, n, [Entry(key, Mapping([]))])
  {
    var r := Opened(s, base, key, n);
    HandleReads(r.store, |s.store|, Innermost(base));
    FieldAppended(s.store, r.store, Innermost(base), key, Handle(|s.store|), Mapping([]));
  }

  /** The mapping opened by a key line is empty and innermost for deeper lines. */
  lemma OpenedInside(s: State, mid: State, base: seq<Frame>, key: string, n: nat, sub: seq<Entry>)
    requires Inside(s, base, n, true) && Valid(mid) && mid == Opened(s, base, key, n)
    ensures Inside(mid, base + [Frame(n + 2, |s.store|)], n + 2, true)
    ensures NewKeys(mid.store, Innermost(base + [Frame(n + 2, |s.store|)]), sub)
  {
  }

  /** Filling the mapping opened by a key line completes the entry. */
  lemma FilledAdds(s: State, mid: State, r: State, base: seq<Frame>, inner: seq<Frame>, key: string, n: nat, sub: seq<Entry>)
    requires Inside(s, base, n, true) && mid == Opened(s, base, key, n)
    requires inner == base + [Frame(n + 2, |s.store|)]
    requires Adds(mid, r, inner, n + 2, sub)
    ensures Adds(s, r, base, n, [Entry(key, Mapping(sub))])
  {
    var d, made := Innermost(base), |s.store|;
    assert Contents(mid.store, made) == [];
    assert r.store[d] == mid.store[d];
    HandleReads(r.store, made, d);
    FieldAppended(s.store, r.store, d, key, Handle(made), Mapping(sub));
    StillAt(r, base, [Frame(n + 2, made)], n, n + 2);
  }

  /** The state in which the list under a key has just been made. */
  function Listed(s: State, base: seq<Frame>, key: string, n: nat): State
    requires base != [] && Innermost(base) < |s.store| && s.store[Innermost(base)].MapNode?
  {
    var d, made := Innermost(base), |s.store|;
    var owner := MapNode(s.store[d].fields + [Field(key, Handle(made + 1))]);
    State(s.store[d := owner] + [MapNode([]), ListNode([])],
          base + [Frame(n + 2, made), Frame(n + 2, made + 1)], Some(Pending(d, key)))
  }

  /** Promotion replaces the mapping made for the key by a list, in the same place. */
  lemma PromotedIsListed(s: State, base: seq<Frame>, key: string, n: nat)
    requires Inside(s, base, n, true) && LegalKey(key) && NewKey(s.store, Innermost(base), key)
    requires Valid(Opened(s, base, key, n))
    ensures Promote(Opened(s, base, key, n), Pending(Innermost(base), key), n + 2) == Listed(s, base, key, n)
    ensures OpenList(Opened(s, base, key, n), n + 2) == Some(Listed(s, base, key, n))
  {
    var fields := s.store[Innermost(base)].fields;
    var longer := fields + [Field(key, Handle(|s.store|))];
    assert longer[|fields|].key == key;
    assert Find(longer, key) == |fields|;
    assert longer[|fields| := Field(key, Handle(|s.store| + 1))] == fields + [Field(key, Handle(|s.store| + 1))];
  }

  lemma ListedAdds(s: State, r: State, base: seq<Frame>, key: string, n: nat, items: seq<Item>)
    requires Inside(s, base, n, true)
    requires AddsItems(Listed(s, base, key, n), r, Listed(s, base, key, n).stack, n + 2, items)
    ensures Adds(s, r, base, n, [Entry(key, Listing(items))])
  {
    var d, made, list := Innermost(base), |s.store|, Listed(s, base, key, n);
    assert ListContents(list.store, made + 1) == [];
    assert r.store[d] == list.store[d];
    HandleReads(r.store, made + 1, d);
    FieldAppended(s.store, r.store, d, key, Handle(made + 1), Listing(items));
    StillAt(r, base, [Frame(n + 2, made), Frame(n + 2, made + 1)], n, n + 2);
  }

  /** The state after a dash that opens a mapping. */
  function OpenedItem(s: State, base: seq<Frame>, n: nat): State
    requires base != [] && Innermost(base) < |s.store| && s.store[Innermost(base)].ListNode?
  {
    var d, made := Innermost(base), |s.store|;
    State(s.store[d := ListNode(s.store[d].items + [Handle(made)])] + [MapNode([])],
          base + [Frame(n + 2, made)], s.pending)
  }

  lemma OpenedItemInside(s: State, mid: State, base: seq<Frame>, n: nat, sub: seq<Entry>)
    requires Inside(s, base, n, false) && Valid(mid) && mid == OpenedItem(s, base, n).(pending := mid.pending)
    ensures Inside(mid, base + [Frame(n + 2, |s.store|)], n + 2, true)
    ensures NewKeys(mid.store, Innermost(base + [Frame(n + 2, |s.store|)]), sub)
  {
  }

  lemma ItemFilled(s: State, mid: State, r: State, base: seq<Frame>, inner: seq<Frame>, n: nat, sub: seq<Entry>)
    requires Inside(s, base, n, false) && Valid(mid) && mid == OpenedItem(s, base, n).(pending := mid.pending)
    requires inner == base + [Frame(n + 2, |s.store|)]
    requires Adds(mid, r, inner, n + 2, sub)
    ensures AddsItems(s, r, base, n, [MapItem(sub)])
  {
    var d, made := Innermost(base), |s.store|;
    assert Contents(mid.store, made) == [];
    assert r.store[d] == mid.store[d];
    ItemAppended(s.store, r.store, d, Handle(made), MapItem(sub));
    StillAt(r, base, [Frame(n + 2, made)], n, n + 2);
  }
}
