/** The nested mappings and lists that a configuration file stores. */
module ConfigValues {
  import opened PythonText
  import opened ConfigScalars

  /** A Python dict is a sequence of entries in insertion order. */
  datatype Value = Leaf(v: Scalar) | Mapping(entries: seq<Entry>) | Listing(items: seq<Item>)
  datatype Entry = Entry(key: string, value: Value)
  datatype Item = ScalarItem(v: Scalar) | MapItem(entries: seq<Entry>)

  predicate IsKeyChar(c: char) {
    'A' <= c <= 'Z' || 'a' <= c <= 'z' || '0' <= c <= '9' || c == '_' || c == '-'
  }

  /** Keys the file format can carry: a leading dash would make the line a list item. */
  predicate LegalKey(k: string) {
    k != "" && k[0] != '-' && forall i :: 0 <= i < |k| ==> IsKeyChar(k[i])
  }

  predicate DistinctKeys(es: seq<Entry>) {
    forall i, j :: 0 <= i < j < |es| ==> es[i].key != es[j].key
  }

  predicate SingleLineScalar(v: Scalar) {
    v.Str? ==> SingleLine(v.s)
  }

  /** Trees whose every entry is printed on lines of its own. */
  predicate Printable(es: seq<Entry>) {
    && DistinctKeys(es)
    && forall i :: 0 <= i < |es| ==> LegalKey(es[i].key) && PrintableValue(es[i].value)
  }

  predicate PrintableValue(v: Value) {
    match v
    case Leaf(x) => SingleLineScalar(x)
    case Mapping(es) => Printable(es)
    case Listing(items) => forall i :: 0 <= i < |items| ==> PrintableItem(items[i])
  }

  predicate PrintableItem(item: Item) {
    match item
    case ScalarItem(x) => SingleLineScalar(x)
    case MapItem(es) => Printable(es)
  }

  predicate PlainScalar(v: Scalar) {
    v.Str? ==> v.s != "" && SingleLine(v.s) && !IsSpace(v.s[0]) && !IsSpace(v.s[|v.s| - 1]) && PlainText(v.s)
  }

  predicate EndsInColon(s: string) {
    s != "" && s[|s| - 1] == ':'
  }

  /**
   * Trees that the file format preserves: legal and distinct keys, no empty list, and every
   * string non-empty, trimmed, on one line and not mistaken for another scalar; inside a list
   * a string must not end in a colon either.
   */
  predicate Plain(es: seq<Entry>) {
    && DistinctKeys(es)
    && forall i :: 0 <= i < |es| ==> LegalKey(es[i].key) && PlainValue(es[i].value)
  }

  predicate PlainValue(v: Value) {
    match v
    case Leaf(x) => PlainScalar(x)
    case Mapping(es) => Plain(es)
    case Listing(items) => items != [] && forall i :: 0 <= i < |items| ==> PlainItem(items[i])
  }

  predicate PlainItem(item: Item) {
    match item
    case ScalarItem(x) => PlainScalar(x) && (x.Str? ==> !EndsInColon(x.s))
    case MapItem(es) => Plain(es)
  }

  /**
   * What a printed tree is read back as. Scalars are trimmed and re-parsed; text that trims
   * away becomes an empty mapping, as does an empty list.
   */
  function ReadBack(es: seq<Entry>): (r: seq<Entry>)
    ensures |r| == |es| && forall i :: 0 <= i < |r| ==> r[i].key == es[i].key
  {
    if es == [] then [] else [Entry(es[0].key, ReadBackValue(es[0].value))] + ReadBack(es[1..])
  }

  function ReadBackValue(v: Value): Value {
    match v
    case Leaf(x) =>
      var text := Strip(RenderScalar(x));
      if text == "" then Mapping([]) else Leaf(ParseScalar(text))
    case Mapping(es) => Mapping(ReadBack(es))
    case Listing(items) => if items == [] then Mapping([]) else Listing(ReadBackItems(items))
  }

  function ReadBackItems(items: seq<Item>): (r: seq<Item>)
    ensures |r| == |items|
  {
    if items == [] then [] else [ReadBackItem(items[0])] + ReadBackItems(items[1..])
  }

  function ReadBackItem(item: Item): Item {
    match item
    case ScalarItem(x) =>
      var text := Strip(RenderScalar(x));
      if text == "" || EndsInColon(text) then MapItem([]) else ScalarItem(ParseScalar(text))
    case MapItem(es) => MapItem(ReadBack(es))
  }

  // ---------------------------------------------------------------- plain trees are the fixed points

  lemma PlainIsPrintable(es: seq<Entry>)
    requires Plain(es)
    ensures Printable(es)
  {
    forall i | 0 <= i < |es|
      ensures PrintableValue(es[i].value)
    {
      match es[i].value {
        case Leaf(x) =>
        case Mapping(sub) => PlainIsPrintable(sub);
        case Listing(items) =>
          forall j | 0 <= j < |items|
            ensures PrintableItem(items[j])
          {
            assert PlainItem(items[j]);
            if items[j].MapItem? { PlainIsPrintable(items[j].entries); }
          }
      }
    }
  }

  lemma RenderTrimmed(v: Scalar)
    requires !v.Str?
    ensures Strip(RenderScalar(v)) == RenderScalar(v) != ""
    ensures !EndsInColon(RenderScalar(v))
  {
    StripIdentity(RenderScalar(v));
  }

  lemma LeafFixed(v: Scalar)
    requires SingleLineScalar(v)
    ensures ReadBackValue(Leaf(v)) == Leaf(v) <==> PlainScalar(v)
    ensures ReadBackItem(ScalarItem(v)) == ScalarItem(v) <==> PlainItem(ScalarItem(v))
  {
    if v.Str? {
      StripIdentity(v.s);
      RoundTripString(Strip(v.s));
      assert |Strip(v.s)| <= |LStrip(v.s)| <= |v.s|;
      assert ParseScalar(Strip(v.s)) == v ==> v.s == Strip(v.s);
    } else {
      RenderTrimmed(v);
      RoundTripNonString(v);
    }
  }

  /** On printable trees, reading back changes nothing exactly when the tree is plain. */
  lemma {:induction false} ReadBackFixed(es: seq<Entry>)
    requires Printable(es)
    ensures ReadBack(es) == es <==> Plain(es)
    decreases es
  {
    ReadBackAt(es);
    forall i | 0 <= i < |es|
      ensures ReadBackValue(es[i].value) == es[i].value <==> PlainValue(es[i].value)
    {
      match es[i].value {
        case Leaf(x) => LeafFixed(x);
        case Mapping(sub) => ReadBackFixed(sub);
        case Listing(items) => ItemsFixed(items);
      }
    }
    if ReadBack(es) == es {
      forall i | 0 <= i < |es|
        ensures PlainValue(es[i].value)
      {
        assert ReadBack(es)[i] == Entry(es[i].key, ReadBackValue(es[i].value));
      }
    }
    if Plain(es) {
      forall i | 0 <= i < |es|
        ensures ReadBack(es)[i] == es[i]
      {
      }
    }
  }

  lemma {:induction false} ItemsFixed(items: seq<Item>)
    requires forall i :: 0 <= i < |items| ==> PrintableItem(items[i])
    ensures ReadBackItems(items) == items <==> forall i :: 0 <= i < |items| ==> PlainItem(items[i])
    decreases items
  {
    if items != [] {
      match items[0] {
        case ScalarItem(x) => LeafFixed(x);
        case MapItem(sub) => ReadBackFixed(sub);
      }
      assert ReadBackItem(items[0]) == items[0] <==> PlainItem(items[0]);
      var rest := items[1..];
      ItemsFixed(rest);
      assert items == [items[0]] + rest;
      assert (forall i :: 0 <= i < |items| ==> PlainItem(items[i]))
          <==> PlainItem(items[0]) && forall i :: 0 <= i < |rest| ==> PlainItem(rest[i]);
    }
  }

  lemma {:induction false} ReadBackAt(es: seq<Entry>)
    ensures forall i :: 0 <= i < |es| ==> ReadBack(es)[i] == Entry(es[i].key, ReadBackValue(es[i].value))
  {
    if es != [] {
      ReadBackAt(es[1..]);
    }
  }
}
