/**
 * Reading a tree: `_parse_simple_yaml`, as a state machine over lines.
 *
 * The parser builds dictionaries and lists that are shared between the tree, the stack and
 * `pending_list_key`. Here object identity is an index into `store`, in order of creation.
 */
module ConfigParser {
  import opened Options
  import opened PythonText
  import opened ConfigScalars
  import opened ConfigValues

  datatype Ref = Plainly(v: Scalar) | Handle(id: nat)
  datatype Field = Field(key: string, value: Ref)
  datatype Node = MapNode(fields: seq<Field>) | ListNode(items: seq<Ref>)
  datatype Frame = Frame(indent: nat, id: nat)
  datatype Pending = Pending(owner: nat, key: string)
  datatype State = State(store: seq<Node>, stack: seq<Frame>, pending: Option<Pending>)

  const Start := State([MapNode([])], [Frame(0, 0)], None)

  // ---------------------------------------------------------------- dictionaries

  function Find(fields: seq<Field>, key: string): (i: nat)
    ensures i <= |fields|
    ensures i < |fields| ==> fields[i].key == key
    ensures forall j :: 0 <= j < i ==> fields[j].key != key
  {
    if fields == [] || fields[0].key == key then 0 else 1 + Find(fields[1..], key)
  }

  /** `d[key] = value`: a key that is present keeps its place. */
  function Put(fields: seq<Field>, key: string, value: Ref): seq<Field> {
    var i := Find(fields, key);
    if i < |fields| then fields[i := Field(key, value)] else fields + [Field(key, value)]
  }

  // ---------------------------------------------------------------- well-formed states

  predicate DistinctFields(fields: seq<Field>) {
    forall i, j :: 0 <= i < j < |fields| ==> fields[i].key != fields[j].key
  }

  /** A node refers only to nodes made after it, and a list holds scalars and mappings only. */
  predicate NodeOk(store: seq<Node>, id: nat)
    requires id < |store|
  {
    match store[id]
    case MapNode(fields) =>
      && DistinctFields(fields)
      && forall k :: 0 <= k < |fields| ==>
           LegalKey(fields[k].key) && (fields[k].value.Handle? ==> id < fields[k].value.id < |store|)
    case ListNode(items) =>
      forall k :: 0 <= k < |items| ==>
        items[k].Handle? ==> id < items[k].id < |store| && store[items[k].id].MapNode?
  }

  predicate StoreOk(store: seq<Node>) {
    forall id :: 0 <= id < |store| ==> NodeOk(store, id)
  }

  /** The root is at the bottom of a non-empty stack, and indents never decrease upwards. */
  predicate StackOk(stack: seq<Frame>, size: nat) {
    && stack != [] && stack[0] == Frame(0, 0)
    && (forall i :: 0 <= i < |stack| ==> stack[i].id < size)
    && (forall i, j :: 0 <= i < j < |stack| ==> stack[i].indent <= stack[j].indent)
  }

  /** Nodes are only ever added, and none turns from a mapping into a list or back. */
  predicate SameKinds(a: seq<Node>, b: seq<Node>) {
    |a| <= |b| && forall id :: 0 <= id < |a| ==> (a[id].MapNode? <==> b[id].MapNode?)
  }

  predicate PendingOk(p: Option<Pending>, store: seq<Node>) {
    p.Some? ==> p.value.owner < |store| && store[p.value.owner].MapNode? && LegalKey(p.value.key)
  }

  predicate Valid(s: State) {
    StoreOk(s.store) && StackOk(s.stack, |s.store|) && PendingOk(s.pending, s.store)
  }

  function Top(s: State): nat
    requires s.stack != []
  {
    s.stack[|s.stack| - 1].id
  }

  function TopIndent(s: State): nat
    requires s.stack != []
  {
    s.stack[|s.stack| - 1].indent
  }

  // ---------------------------------------------------------------- one line

  /** Length of the longest prefix of key characters. */
  function KeyPrefix(line: string): (n: nat)
    ensures n <= |line|
    ensures forall i :: 0 <= i < n ==> IsKeyChar(line[i])
    ensures n < |line| ==> !IsKeyChar(line[n])
  {
    if line == "" || !IsKeyChar(line[0]) then 0 else 1 + KeyPrefix(line[1..])
  }

  /** The regular expression `_KEY_VALUE` on a trimmed line. */
  function MatchKeyValue(line: string): Option<(string, string)> {
    var n := KeyPrefix(line);
    if 0 < n < |line| && line[n] == ':' then Some((line[..n], Strip(line[n + 1..]))) else None
  }

  /** Blank lines and comments are skipped. */
  predicate Skipped(raw: string) {
    Strip(raw) == "" || (LStrip(raw) != "" && LStrip(raw)[0] == '#')
  }

  /** Leave the containers that are indented deeper than the line. */
  function Pop(s: State, indent: nat): (r: State)
    requires Valid(s)
    ensures Valid(r) && r.store == s.store && r.stack <= s.stack && TopIndent(r) <= indent
    decreases |s.stack|
  {
    if indent < TopIndent(s) then Pop(s.(stack := s.stack[..|s.stack| - 1], pending := None), indent) else s
  }

  /** The list that a dash on this line belongs to, promoting a pending mapping to a list. */
  function OpenList(s: State, indent: nat): (r: Option<State>)
    requires Valid(s) && TopIndent(s) <= indent
    ensures r.Some? ==> Valid(r.value) && r.value.store[Top(r.value)].ListNode? && TopIndent(r.value) <= indent
    ensures r.Some? ==> SameKinds(s.store, r.value.store)
  {
    if s.store[Top(s)].ListNode? then Some(s)
    else
      match s.pending
      case None => None
      case Some(p) =>
        var fields := s.store[p.owner].fields;
        var i := Find(fields, p.key);
        assert NodeOk(s.store, p.owner);
        if i < |fields| && fields[i].value.Handle? && s.store[fields[i].value.id].ListNode? then
          Some(s.(stack := s.stack + [Frame(indent, fields[i].value.id)]))
        else
          Some(Promote(s, p, indent))
  }

  /** `owner[key] = []`, with the new list on the stack. */
  function Promote(s: State, p: Pending, indent: nat): (r: State)
    requires Valid(s) && s.pending == Some(p) && TopIndent(s) <= indent
    ensures Valid(r) && Top(r) == |s.store| && r.store[Top(r)] == ListNode([])
    ensures SameKinds(s.store, r.store)
  {
    var made := |s.store|;
    var owner := MapNode(Put(s.store[p.owner].fields, p.key, Handle(made)));
    var r := s.(store := s.store[p.owner := owner] + [ListNode([])], stack := s.stack + [Frame(indent, made)]);
    assert NodeOk(s.store, p.owner);
    assert StoreOk(r.store) by { GrowStore(s.store, p.owner, owner, ListNode([])); }
    r
  }

  /** Changing one node and adding one keeps the store well formed. */
  lemma GrowStore(store: seq<Node>, id: nat, changed: Node, extra: Node)
    requires StoreOk(store) && id < |store| && (changed.MapNode? <==> store[id].MapNode?)
    requires NodeOk(store[id := changed] + [extra], id)
    requires extra == MapNode([]) || extra == ListNode([])
    ensures StoreOk(store[id := changed] + [extra])
  {
    var after := store[id := changed] + [extra];
    forall k | 0 <= k < |after|
      ensures NodeOk(after, k)
    {
      if k < |store| && k != id {
        assert NodeOk(store, k);
      }
    }
  }

  /** Changing one node to hold scalars only where it changed keeps the store well formed. */
  lemma UpdateStore(store: seq<Node>, id: nat, changed: Node)
    requires StoreOk(store) && id < |store| && (changed.MapNode? <==> store[id].MapNode?)
    requires NodeOk(store[id := changed], id)
    ensures StoreOk(store[id := changed])
  {
    var after := store[id := changed];
    forall k | 0 <= k < |after|
      ensures NodeOk(after, k)
    {
      if k != id {
        assert NodeOk(store, k);
      }
    }
  }

  /** A dash with nothing or a colon-ended text after it opens a mapping inside the list. */
  function AppendItem(s: State, indent: nat, text: string): (r: State)
    requires Valid(s) && s.store[Top(s)].ListNode? && TopIndent(s) <= indent
    ensures Valid(r) && SameKinds(s.store, r.store)
  {
    var list := Top(s);
    var items := s.store[list].items;
    assert NodeOk(s.store, list);
    if text == "" || EndsInColon(text) then
      var made := |s.store|;
      var changed := ListNode(items + [Handle(made)]);
      assert StoreOk(s.store[list := changed] + [MapNode([])]) by { GrowStore(s.store, list, changed, MapNode([])); }
      s.(store := s.store[list := changed] + [MapNode([])], stack := s.stack + [Frame(indent + 2, made)])
    else
      var changed := ListNode(items + [Plainly(ParseScalar(text))]);
      assert StoreOk(s.store[list := changed]) by { UpdateStore(s.store, list, changed); }
      s.(store := s.store[list := changed])
  }

  function StepItem(s: State, indent: nat, text: string): (r: State)
    requires Valid(s) && TopIndent(s) <= indent
    ensures Valid(r) && SameKinds(s.store, r.store)
  {
    match OpenList(s, indent)
    case None => s
    case Some(open) => AppendItem(open, indent, text)
  }

  function StepKey(s: State, indent: nat, key: string, value: string): (r: State)
    requires Valid(s) && TopIndent(s) <= indent && LegalKey(key)
    ensures Valid(r) && SameKinds(s.store, r.store)
  {
    var parent := Top(s);
    if !s.store[parent].MapNode? then s
    else
      var fields := s.store[parent].fields;
      assert NodeOk(s.store, parent);
      if value == "" then
        var made := |s.store|;
        var changed := MapNode(Put(fields, key, Handle(made)));
        assert StoreOk(s.store[parent := changed] + [MapNode([])]) by { GrowStore(s.store, parent, changed, MapNode([])); }
        State(s.store[parent := changed] + [MapNode([])], s.stack + [Frame(indent + 2, made)], Some(Pending(parent, key)))
      else
        var changed := MapNode(Put(fields, key, Plainly(ParseScalar(value))));
        assert StoreOk(s.store[parent := changed]) by { UpdateStore(s.store, parent, changed); }
        State(s.store[parent := changed], s.stack, None)
  }

  lemma MatchedKeyIsLegal(line: string)
    requires line != "" && line[0] != '-' && MatchKeyValue(line).Some?
    ensures LegalKey(MatchKeyValue(line).value.0)
  {
  }

  function Step(s: State, raw: string): (r: State)
    requires Valid(s)
    ensures Valid(r) && SameKinds(s.store, r.store)
  {
    if Skipped(raw) then s
    else
      var indent := LeadingSpaces(raw);
      var line := Strip(raw);
      var popped := Pop(s, indent);
      if line[0] == '-' then StepItem(popped, indent, Strip(line[1..]))
      else
        match MatchKeyValue(line)
        case None => popped
        case Some(kv) =>
          assert LegalKey(kv.0) by { MatchedKeyIsLegal(line); }
          StepKey(popped, indent, kv.0, kv.1)
  }

  function Run(s: State, lines: seq<string>): (r: State)
    requires Valid(s)
    ensures Valid(r) && SameKinds(s.store, r.store)
    decreases |lines|
  {
    if lines == [] then s else Run(Step(s, lines[0]), lines[1..])
  }

  lemma {:induction false} RunConcat(s: State, a: seq<string>, b: seq<string>)
    requires Valid(s)
    ensures Run(s, a + b) == Run(Run(s, a), b)
    decreases |a|
  {
    if a == [] {
      assert a + b == b;
    } else {
      assert (a + b)[1..] == a[1..] + b;
      RunConcat(Step(s, a[0]), a[1..], b);
    }
  }

  // ---------------------------------------------------------------- reading the tree off the store

  predicate FieldsAbove(store: seq<Node>, fields: seq<Field>, low: nat) {
    forall k :: 0 <= k < |fields| ==> fields[k].value.Handle? ==> low < fields[k].value.id < |store|
  }

  predicate ItemsAbove(store: seq<Node>, items: seq<Ref>, low: nat) {
    forall k :: 0 <= k < |items| ==> items[k].Handle? ==> low < items[k].id < |store| && store[items[k].id].MapNode?
  }

  function ReadFields(store: seq<Node>, fields: seq<Field>, low: nat): (es: seq<Entry>)
    requires StoreOk(store) && low < |store| && FieldsAbove(store, fields, low)
    ensures |es| == |fields| && forall i :: 0 <= i < |es| ==> es[i].key == fields[i].key
    decreases |store| - low, |fields|
  {
    if fields == [] then []
    else
      var last := fields[|fields| - 1];
      ReadFields(store, fields[..|fields| - 1], low) + [Entry(last.key, ReadRef(store, last.value, low))]
  }

  function ReadRef(store: seq<Node>, r: Ref, low: nat): Value
    requires StoreOk(store) && low < |store| && (r.Handle? ==> low < r.id < |store|)
    decreases |store| - low, 0
  {
    match r
    case Plainly(v) => Leaf(v)
    case Handle(id) =>
      assert NodeOk(store, id);
      match store[id]
      case MapNode(fields) => Mapping(ReadFields(store, fields, id))
      case ListNode(items) => Listing(ReadItems(store, items, id))
  }

  function ReadItems(store: seq<Node>, items: seq<Ref>, low: nat): (r: seq<Item>)
    requires StoreOk(store) && low < |store| && ItemsAbove(store, items, low)
    ensures |r| == |items|
    decreases |store| - low, |items|
  {
    if items == [] then []
    else
      ReadItems(store, items[..|items| - 1], low) + [ReadItem(store, items[|items| - 1], low)]
  }

  function ReadItem(store: seq<Node>, r: Ref, low: nat): Item
    requires StoreOk(store) && low < |store|
    requires r.Handle? ==> low < r.id < |store| && store[r.id].MapNode?
    decreases |store| - low, 0
  {
    match r
    case Plainly(v) => ScalarItem(v)
    case Handle(id) =>
      assert NodeOk(store, id);
      MapItem(ReadFields(store, store[id].fields, id))
  }

  function Tree(s: State): seq<Entry>
    requires Valid(s) && s.store[0].MapNode?
  {
    assert NodeOk(s.store, 0);
    ReadFields(s.store, s.store[0].fields, 0)
  }

  // ---------------------------------------------------------------- whole texts

  lemma StartIsValid()
    ensures Valid(Start)
  {
  }

  /** What the parser makes of a text. It is total: every text yields a mapping. */
  function ParseText(text: string): seq<Entry> {
    StartIsValid();
    Tree(Run(Start, SplitLines(text)))
  }
}
