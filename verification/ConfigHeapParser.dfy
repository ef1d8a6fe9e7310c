/**
 * The parser with real shared objects: dictionaries and lists are updated in place while the
 * tree, the stack and the pending key all refer to them.
 */
module ConfigHeapParser {
  import opened Options
  import opened PythonText
  import opened ConfigScalars
  import opened ConfigValues
  import opened ConfigParser

  datatype PyRef = Direct(v: Scalar) | Object(c: Container)
  datatype Slot = Slot(key: string, value: PyRef)
  datatype Level = Level(indent: nat, c: Container)
  datatype Waiting = Waiting(owner: Container, key: string)

  function FindSlot(slots: seq<Slot>, key: string): (i: nat)
    ensures i <= |slots|
  {
    if slots == [] || slots[0].key == key then 0 else 1 + FindSlot(slots[1..], key)
  }

  function PutSlot(slots: seq<Slot>, key: string, value: PyRef): seq<Slot> {
    var i := FindSlot(slots, key);
    if i < |slots| then slots[i := Slot(key, value)] else slots + [Slot(key, value)]
  }

  lemma {:induction false} FindSlotIs(slots: seq<Slot>, key: string, i: nat)
    requires i <= |slots| && (i < |slots| ==> slots[i].key == key)
    requires forall j :: 0 <= j < i ==> slots[j].key != key
    ensures FindSlot(slots, key) == i
  {
    if i > 0 {
      FindSlotIs(slots[1..], key, i - 1);
    }
  }

  /** A Python dict (`slots`) or list (`elements`). */
  class Container {
    const isList: bool
    var slots: seq<Slot>
    var elements: seq<PyRef>

    constructor (isList: bool)
      ensures this.isList == isList && slots == [] && elements == []
    {
      this.isList := isList;
      slots := [];
      elements := [];
    }

    /** Position of a key, or the number of keys when it is absent. */
    method Lookup(key: string) returns (i: nat)
      ensures i <= |slots| && i == FindSlot(slots, key)
    {
      i := 0;
      while i < |slots| && slots[i].key != key
        invariant i <= |slots|
        invariant forall j :: 0 <= j < i ==> slots[j].key != key
      {
        i := i + 1;
      }
      FindSlotIs(slots, key, i);
    }

    /** `self[key] = value`. */
    method SetItem(key: string, value: PyRef)
      modifies this`slots
      ensures slots == PutSlot(old(slots), key, value)
    {
      var i := Lookup(key);
      if i < |slots| {
        slots := slots[i := Slot(key, value)];
      } else {
        slots := slots + [Slot(key, value)];
      }
    }

    /** `self.append(value)`. */
    method Append(value: PyRef)
      modifies this`elements
      ensures elements == old(elements) + [value]
    {
      elements := elements + [value];
    }
  }

  // ---------------------------------------------------------------- objects against store indices

  ghost predicate MirrorRef(objs: seq<Container>, p: PyRef, r: Ref) {
    match r
    case Plainly(v) => p == Direct(v)
    case Handle(id) => id < |objs| && p == Object(objs[id])
  }

  ghost predicate MirrorSlots(objs: seq<Container>, slots: seq<Slot>, fields: seq<Field>) {
    && |slots| == |fields|
    && forall k :: 0 <= k < |fields| ==> slots[k].key == fields[k].key && MirrorRef(objs, slots[k].value, fields[k].value)
  }

  ghost predicate MirrorElements(objs: seq<Container>, elements: seq<PyRef>, items: seq<Ref>) {
    && |elements| == |items|
    && forall k :: 0 <= k < |items| ==> MirrorRef(objs, elements[k], items[k])
  }

  /** What an object holds at some moment. */
  datatype Shape = Shape(isList: bool, slots: seq<Slot>, elements: seq<PyRef>)

  ghost function Shapes(objs: seq<Container>): (shapes: seq<Shape>)
    reads objs
    ensures |shapes| == |objs|
    ensures forall i :: 0 <= i < |objs| ==> shapes[i] == Shape(objs[i].isList, objs[i].slots, objs[i].elements)
  {
    if objs == [] then [] else
    var n := |objs| - 1;
    Shapes(objs[..n]) + [Shape(objs[n].isList, objs[n].slots, objs[n].elements)]
  }

  ghost predicate MirrorNode(objs: seq<Container>, shape: Shape, node: Node) {
    match node
    case MapNode(fields) => !shape.isList && MirrorSlots(objs, shape.slots, fields)
    case ListNode(items) => shape.isList && MirrorElements(objs, shape.elements, items)
  }

  ghost predicate MirrorAll(objs: seq<Container>, shapes: seq<Shape>, store: seq<Node>) {
    && |objs| == |shapes| == |store|
    && forall i :: 0 <= i < |store| ==> MirrorNode(objs, shapes[i], store[i])
  }

  ghost predicate Distinct(objs: seq<Container>) {
    forall i, j :: 0 <= i < j < |objs| ==> objs[i] != objs[j]
  }

  /** The objects, in order of creation, hold what the store's nodes hold; no object occurs twice. */
  ghost predicate Mirrors(objs: seq<Container>, store: seq<Node>)
    reads objs
  {
    Distinct(objs) && MirrorAll(objs, Shapes(objs), store)
  }

  /** The stack and the pending key refer to the objects that the state's indices stand for. */
  ghost predicate StackLinked(objs: seq<Container>, stack: seq<Level>, pending: Option<Waiting>, s: State) {
    && |stack| == |s.stack|
    && (forall i :: 0 <= i < |stack| ==> s.stack[i].id < |objs| && stack[i] == Level(s.stack[i].indent, objs[s.stack[i].id]))
    && (pending.Some? <==> s.pending.Some?)
    && (pending.Some? ==> s.pending.value.owner < |objs|
                          && pending.value == Waiting(objs[s.pending.value.owner], s.pending.value.key))
  }

  ghost predicate Linked(objs: seq<Container>, stack: seq<Level>, pending: Option<Waiting>, s: State)
    reads objs
  {
    Mirrors(objs, s.store) && StackLinked(objs, stack, pending, s)
  }

  /** A new object on top of the stack, and its key pending. */
  lemma StackGrownWaiting(objs: seq<Container>, made: Container, stack: seq<Level>, pending: Option<Waiting>, s: State, s': State,
                          indent: nat, owner: nat, key: string)
    requires StackLinked(objs, stack, pending, s) && owner < |objs|
    requires s'.stack == s.stack + [Frame(indent, |objs|)] && s'.pending == Some(Pending(owner, key))
    ensures StackLinked(objs + [made], stack + [Level(indent, made)], Some(Waiting(objs[owner], key)), s')
  {
  }

  /** A new object on top of the stack. */
  lemma StackGrown(objs: seq<Container>, made: Container, stack: seq<Level>, pending: Option<Waiting>, s: State, s': State, indent: nat)
    requires StackLinked(objs, stack, pending, s)
    requires s'.stack == s.stack + [Frame(indent, |objs|)] && s'.pending == s.pending
    ensures StackLinked(objs + [made], stack + [Level(indent, made)], pending, s')
  {
  }

  lemma {:induction false} FindMirrors(objs: seq<Container>, slots: seq<Slot>, fields: seq<Field>, key: string)
    requires MirrorSlots(objs, slots, fields)
    ensures FindSlot(slots, key) == Find(fields, key)
  {
    var i := Find(fields, key);
    FindSlotIs(slots, key, i);
  }

  lemma PutMirrors(objs: seq<Container>, slots: seq<Slot>, fields: seq<Field>, key: string, p: PyRef, r: Ref)
    requires MirrorSlots(objs, slots, fields) && MirrorRef(objs, p, r)
    ensures MirrorSlots(objs, PutSlot(slots, key, p), Put(fields, key, r))
  {
    FindMirrors(objs, slots, fields, key);
  }

  lemma MoreSlots(objs: seq<Container>, more: seq<Container>, slots: seq<Slot>, fields: seq<Field>)
    requires MirrorSlots(objs, slots, fields)
    ensures MirrorSlots(objs + more, slots, fields)
  {
  }

  lemma AppendMirrors(objs: seq<Container>, elements: seq<PyRef>, items: seq<Ref>, p: PyRef, r: Ref)
    requires MirrorElements(objs, elements, items) && MirrorRef(objs, p, r)
    ensures MirrorElements(objs, elements + [p], items + [r])
  {
  }

  lemma MoreElements(objs: seq<Container>, more: seq<Container>, elements: seq<PyRef>, items: seq<Ref>)
    requires MirrorElements(objs, elements, items)
    ensures MirrorElements(objs + more, elements, items)
  {
  }

  /** Changing one object and adding others keeps the mirror, if those mirror their nodes. */
  lemma StillMirrors(objs: seq<Container>, more: seq<Container>, before: seq<Shape>, after: seq<Shape>,
                     store: seq<Node>, store': seq<Node>, id: nat)
    requires MirrorAll(objs, before, store) && id < |objs|
    requires |store'| == |after| == |objs + more|
    requires forall i :: 0 <= i < |objs| && i != id ==> after[i] == before[i] && store'[i] == store[i]
    requires forall i :: |objs| <= i < |after| ==> MirrorNode(objs + more, after[i], store'[i])
    requires MirrorNode(objs + more, after[id], store'[id])
    ensures MirrorAll(objs + more, after, store')
  {
    var all := objs + more;
    forall i | 0 <= i < |all|
      ensures MirrorNode(all, after[i], store'[i])
    {
      if i < |objs| && i != id {
        assert MirrorNode(objs, before[i], store[i]);
        match store[i] {
          case MapNode(fields) => MoreSlots(objs, more, before[i].slots, fields);
          case ListNode(items) => MoreElements(objs, more, before[i].elements, items);
        }
      }
    }
  }

  /** `owner[key] = []`, with the new list on the stack. */
  method MakeList(stack: seq<Level>, pending: Option<Waiting>, indent: nat, ghost objs: seq<Container>, ghost s: State)
    returns (list: Container)
    requires Valid(s) && Linked(objs, stack, pending, s) && TopIndent(s) <= indent && pending.Some?
    modifies pending.value.owner
    ensures fresh(list)
    ensures Linked(objs + [list], stack + [Level(indent, list)], pending, Promote(s, s.pending.value, indent))
  {
    var owner, key := pending.value.owner, pending.value.key;
    ghost var p := s.pending.value;
    ghost var fields := s.store[p.owner].fields;
    ghost var before := Shapes(objs);
    assert MirrorNode(objs, before[p.owner], s.store[p.owner]);
    list := new Container(true);
    MoreSlots(objs, [list], owner.slots, fields);
    PutMirrors(objs + [list], owner.slots, fields, key, Object(list), Handle(|objs|));
    owner.SetItem(key, Object(list));
    StillMirrors(objs, [list], before, Shapes(objs + [list]), s.store, Promote(s, p, indent).store, p.owner);
    StackGrown(objs, list, stack, pending, s, Promote(s, p, indent), indent);
    hide StackLinked, MirrorAll;
  }

  lemma PushKnown(objs: seq<Container>, stack: seq<Level>, pending: Option<Waiting>, s: State, indent: nat, id: nat)
    requires Linked(objs, stack, pending, s) && id < |objs|
    ensures Linked(objs, stack + [Level(indent, objs[id])], pending, s.(stack := s.stack + [Frame(indent, id)]))
  {
  }

  /** `owner.get(key)` if it is a list. */
  method PendingList(pending: Option<Waiting>, stack: seq<Level>, ghost objs: seq<Container>, ghost s: State)
    returns (list: Option<Container>, ghost id: nat)
    requires Valid(s) && Linked(objs, stack, pending, s) && pending.Some?
    ensures var fields := s.store[s.pending.value.owner].fields;
            var i := Find(fields, s.pending.value.key);
            if i < |fields| && fields[i].value.Handle? && fields[i].value.id < |s.store| && s.store[fields[i].value.id].ListNode?
            then id == fields[i].value.id < |objs| && list == Some(objs[id])
            else list == None
  {
    var owner, key := pending.value.owner, pending.value.key;
    ghost var p := s.pending.value;
    ghost var fields := s.store[p.owner].fields;
    assert MirrorNode(objs, Shapes(objs)[p.owner], s.store[p.owner]);
    FindMirrors(objs, owner.slots, fields, key);
    list, id := None, 0;
    var i := owner.Lookup(key);
    if i < |owner.slots| && owner.slots[i].value.Object? {
      assert MirrorRef(objs, owner.slots[i].value, fields[i].value);
      id := fields[i].value.id;
      assert MirrorNode(objs, Shapes(objs)[id], s.store[id]);
      if owner.slots[i].value.c.isList {
        list := Some(owner.slots[i].value.c);
      }
    }
  }

  lemma OpenListCases(s: State, indent: nat)
    requires Valid(s) && TopIndent(s) <= indent && !s.store[Top(s)].ListNode? && s.pending.Some?
    ensures var fields := s.store[s.pending.value.owner].fields;
            var i := Find(fields, s.pending.value.key);
            OpenList(s, indent) ==
              if i < |fields| && fields[i].value.Handle? && fields[i].value.id < |s.store| && s.store[fields[i].value.id].ListNode?
              then Some(s.(stack := s.stack + [Frame(indent, fields[i].value.id)]))
              else Some(Promote(s, s.pending.value, indent))
  {
    assert NodeOk(s.store, s.pending.value.owner);
  }

  lemma OpenListEnds(s: State, indent: nat)
    requires Valid(s) && TopIndent(s) <= indent
    ensures s.store[Top(s)].ListNode? ==> OpenList(s, indent) == Some(s)
    ensures !s.store[Top(s)].ListNode? && s.pending.None? ==> OpenList(s, indent) == None
  {
    hide StoreOk;
  }

  lemma PendingLinked(objs: seq<Container>, stack: seq<Level>, pending: Option<Waiting>, s: State)
    requires Linked(objs, stack, pending, s)
    ensures pending.Some? <==> s.pending.Some?
    ensures pending.Some? ==> pending.value.owner in objs
  {
    hide Mirrors;
  }

  lemma TopMirrors(objs: seq<Container>, stack: seq<Level>, pending: Option<Waiting>, s: State)
    requires Valid(s) && Linked(objs, stack, pending, s)
    ensures stack != [] && stack[|stack| - 1] == Level(TopIndent(s), objs[Top(s)])
    ensures Top(s) < |objs| && MirrorNode(objs, Shapes(objs)[Top(s)], s.store[Top(s)])
    ensures objs[Top(s)].isList <==> s.store[Top(s)].ListNode?
  {
    var shapes := Shapes(objs);
    var top := Top(s);
    assert stack[|stack| - 1] == Level(TopIndent(s), objs[top]);
    assert MirrorNode(objs, shapes[top], s.store[top]);
    hide StoreOk, StackOk, PendingOk, MirrorAll, StackLinked, MirrorSlots, MirrorElements, Distinct;
    assert shapes[top].isList == objs[top].isList;
  }

  /** What a list item appends to: the open list, or the pending key's list, made on demand. */
  method FindList(stack: seq<Level>, pending: Option<Waiting>, indent: nat, ghost objs: seq<Container>, ghost s: State)
    returns (found: bool, stack': seq<Level>, ghost more: seq<Container>)
    requires Valid(s) && Linked(objs, stack, pending, s) && TopIndent(s) <= indent
    modifies objs
    ensures fresh(more)
    ensures found <==> OpenList(s, indent).Some?
    ensures found ==> Linked(objs + more, stack', pending, OpenList(s, indent).value)
    ensures !found ==> Linked(objs + more, stack', pending, s)
  {
    TopMirrors(objs, stack, pending, s);
    OpenListEnds(s, indent);
    PendingLinked(objs, stack, pending, s);
    hide *;
    stack', more, found := stack, [], true;
    assert objs + [] == objs;
    if !stack[|stack| - 1].c.isList {
      if pending.None? {
        found := false;
      } else {
        OpenListCases(s, indent);
        var list, id := PendingList(pending, stack, objs, s);
        if list.Some? {
          PushKnown(objs, stack, pending, s, indent, id);
          stack' := stack + [Level(indent, list.value)];
        } else {
          var made := MakeList(stack, pending, indent, objs, s);
          more := [made];
          stack' := stack + [Level(indent, made)];
        }
      }
    }
  }

  lemma AppendItemOpens(s: State, indent: nat, text: string)
    requires Valid(s) && TopIndent(s) <= indent && s.store[Top(s)].ListNode?
    requires text == "" || EndsInColon(text)
    ensures var made := |s.store|;
            var list := ListNode(s.store[Top(s)].items + [Handle(made)]);
            AppendItem(s, indent, text)
              == State(s.store[Top(s) := list] + [MapNode([])], s.stack + [Frame(indent + 2, made)], s.pending)
  {
  }

  /** One list has got one more element, a new and empty mapping. */
  lemma ChildMirrors(objs: seq<Container>, child: Container, before: seq<Shape>, after: seq<Shape>, store: seq<Node>, id: nat)
    requires MirrorAll(objs, before, store) && id < |objs| && store[id].ListNode?
    requires |after| == |objs| + 1 && forall i :: 0 <= i < |objs| && i != id ==> after[i] == before[i]
    requires after[id] == before[id].(elements := before[id].elements + [Object(child)])
    requires after[|objs|] == Shape(false, [], [])
    ensures MirrorAll(objs + [child], after, store[id := ListNode(store[id].items + [Handle(|objs|)])] + [MapNode([])])
  {
    var items := store[id].items;
    assert MirrorNode(objs, before[id], store[id]);
    MoreElements(objs, [child], before[id].elements, items);
    AppendMirrors(objs + [child], before[id].elements, items, Object(child), Handle(|objs|));
    hide MirrorElements, MirrorAll;
    StillMirrors(objs, [child], before, after, store, store[id := ListNode(items + [Handle(|objs|)])] + [MapNode([])], id);
  }

  /** `parent.append(child)` with a new mapping, which goes on the stack. */
  method AppendChild(stack: seq<Level>, pending: Option<Waiting>, indent: nat, text: string,
                     ghost objs: seq<Container>, ghost s: State)
    returns (child: Container)
    requires Valid(s) && Linked(objs, stack, pending, s) && TopIndent(s) <= indent && s.store[Top(s)].ListNode?
    requires text == "" || EndsInColon(text)
    modifies objs
    ensures fresh(child)
    ensures Linked(objs + [child], stack + [Level(indent + 2, child)], pending, AppendItem(s, indent, text))
  {
    AppendItemOpens(s, indent, text);
    hide AppendItem;
    TopMirrors(objs, stack, pending, s);
    hide StoreOk, StackOk, PendingOk, MirrorNode;
    var parent := stack[|stack| - 1].c;
    ghost var before := Shapes(objs);
    child := new Container(false);
    parent.Append(Object(child));
    ChildMirrors(objs, child, before, Shapes(objs + [child]), s.store, Top(s));
    StackGrown(objs, child, stack, pending, s, AppendItem(s, indent, text), indent + 2);
    hide StackLinked, MirrorAll;
  }

  /** `parent.append(_parse_scalar(text))`. */
  method AppendScalar(stack: seq<Level>, pending: Option<Waiting>, indent: nat, text: string,
                      ghost objs: seq<Container>, ghost s: State)
    requires Valid(s) && Linked(objs, stack, pending, s) && TopIndent(s) <= indent && s.store[Top(s)].ListNode?
    requires text != "" && !EndsInColon(text)
    modifies objs
    ensures Linked(objs, stack, pending, AppendItem(s, indent, text))
  {
    TopMirrors(objs, stack, pending, s);
    var parent := stack[|stack| - 1].c;
    ghost var before := Shapes(objs);
    assert objs + [] == objs;
    parent.Append(Direct(ParseScalar(text)));
    StillMirrors(objs, [], before, Shapes(objs), s.store, AppendItem(s, indent, text).store, Top(s));
  }

  /** `parent[key] = child_map`, with the child on the stack. */
  method SetChild(stack: seq<Level>, pending: Option<Waiting>, indent: nat, key: string, ghost objs: seq<Container>, ghost s: State)
    returns (child: Container)
    requires Valid(s) && Linked(objs, stack, pending, s) && TopIndent(s) <= indent && LegalKey(key) && s.store[Top(s)].MapNode?
    modifies objs
    ensures fresh(child) && stack != []
    ensures Linked(objs + [child], stack + [Level(indent + 2, child)], Some(Waiting(stack[|stack| - 1].c, key)),
                   StepKey(s, indent, key, ""))
  {
    TopMirrors(objs, stack, pending, s);
    var parent := stack[|stack| - 1].c;
    ghost var before := Shapes(objs);
    ghost var fields := s.store[Top(s)].fields;
    child := new Container(false);
    MoreSlots(objs, [child], parent.slots, fields);
    PutMirrors(objs + [child], parent.slots, fields, key, Object(child), Handle(|objs|));
    parent.SetItem(key, Object(child));
    StillMirrors(objs, [child], before, Shapes(objs + [child]), s.store, StepKey(s, indent, key, "").store, Top(s));
    StackGrownWaiting(objs, child, stack, pending, s, StepKey(s, indent, key, ""), indent + 2, Top(s), key);
    hide StackLinked, MirrorAll;
  }

  /** `parent[key] = _parse_scalar(value)`. */
  method SetScalar(stack: seq<Level>, pending: Option<Waiting>, indent: nat, key: string, value: string,
                   ghost objs: seq<Container>, ghost s: State)
    requires Valid(s) && Linked(objs, stack, pending, s) && TopIndent(s) <= indent && LegalKey(key)
    requires s.store[Top(s)].MapNode? && value != ""
    modifies objs
    ensures Linked(objs, stack, None, StepKey(s, indent, key, value))
  {
    TopMirrors(objs, stack, pending, s);
    var parent := stack[|stack| - 1].c;
    ghost var before := Shapes(objs);
    assert objs + [] == objs;
    PutMirrors(objs, parent.slots, s.store[Top(s)].fields, key, Direct(ParseScalar(value)), Plainly(ParseScalar(value)));
    parent.SetItem(key, Direct(ParseScalar(value)));
    StillMirrors(objs, [], before, Shapes(objs), s.store, StepKey(s, indent, key, value).store, Top(s));
  }

  /** Leave the containers that are indented deeper than the line. */
  method PopDeeper(stack: seq<Level>, pending: Option<Waiting>, indent: nat, ghost objs: seq<Container>, ghost s: State)
    returns (stack': seq<Level>, pending': Option<Waiting>)
    requires Valid(s) && Linked(objs, stack, pending, s)
    ensures Linked(objs, stack', pending', Pop(s, indent))
  {
    stack', pending' := stack, pending;
    ghost var t := s;
    while stack' != [] && indent < stack'[|stack'| - 1].indent
      invariant Valid(t) && Linked(objs, stack', pending', t) && Pop(t, indent) == Pop(s, indent)
      decreases |stack'|
    {
      PopOne(objs, stack', pending', t, indent);
      hide *;
      stack', pending' := stack'[..|stack'| - 1], None;
      t := t.(stack := t.stack[..|t.stack| - 1], pending := None);
    }
    PopNone(objs, stack', pending', t, indent);
  }

  lemma PopOne(objs: seq<Container>, stack: seq<Level>, pending: Option<Waiting>, s: State, indent: nat)
    requires Valid(s) && Linked(objs, stack, pending, s) && stack != [] && indent < stack[|stack| - 1].indent
    ensures var t := s.(stack := s.stack[..|s.stack| - 1], pending := None);
            Valid(t) && Linked(objs, stack[..|stack| - 1], None, t) && Pop(t, indent) == Pop(s, indent)
  {
    hide Mirrors, StoreOk;
  }

  lemma PopNone(objs: seq<Container>, stack: seq<Level>, pending: Option<Waiting>, s: State, indent: nat)
    requires Valid(s) && Linked(objs, stack, pending, s) && (stack == [] || stack[|stack| - 1].indent <= indent)
    ensures Pop(s, indent) == s
  {
    hide Mirrors, StoreOk;
  }

  /** One line of the loop in the parser. */
  method ParseLine(raw: string, stack: seq<Level>, pending: Option<Waiting>, ghost objs: seq<Container>, ghost s: State)
    returns (stack': seq<Level>, pending': Option<Waiting>, ghost more: seq<Container>)
    requires Valid(s) && Linked(objs, stack, pending, s)
    modifies objs
    ensures fresh(more)
    ensures Linked(objs + more, stack', pending', Step(s, raw))
  {
    hide Linked;
    hide StepItem;
    hide Pop;
    hide StoreOk;
    hide StackOk;
    stack', pending', more := stack, pending, [];
    assert objs + more == objs;
    if Strip(raw) == "" || (LStrip(raw) != "" && LStrip(raw)[0] == '#') {
      return;
    }
    var indent, line := LeadingSpaces(raw), Strip(raw);
    stack', pending' := PopDeeper(stack, pending, indent, objs, s);
    ghost var popped := Pop(s, indent);
    if line[0] == '-' {
      more, stack' := ParseItem(stack', pending', indent, Strip(line[1..]), objs, popped);
    } else {
      var matched := MatchKeyValue(line);
      if matched.Some? {
        MatchedKeyIsLegal(line);
        TopMirrors(objs, stack', pending', popped);
        if !stack'[|stack'| - 1].c.isList {
          var (key, value) := matched.value;
          if value == "" {
            var child := SetChild(stack', pending', indent, key, objs, popped);
            stack', pending' := stack' + [Level(indent + 2, child)], Some(Waiting(stack'[|stack'| - 1].c, key));
            more := [child];
          } else {
            SetScalar(stack', pending', indent, key, value, objs, popped);
            pending' := None;
          }
        }
      }
    }
  }

  lemma StepItemCases(s: State, indent: nat, text: string)
    requires Valid(s) && TopIndent(s) <= indent
    ensures StepItem(s, indent, text)
         == if OpenList(s, indent).Some? then AppendItem(OpenList(s, indent).value, indent, text) else s
  {
  }

  method ParseItem(stack: seq<Level>, pending: Option<Waiting>, indent: nat, text: string, ghost objs: seq<Container>, ghost s: State)
    returns (ghost more: seq<Container>, stack': seq<Level>)
    requires Valid(s) && Linked(objs, stack, pending, s) && TopIndent(s) <= indent
    modifies objs
    ensures fresh(more)
    ensures Linked(objs + more, stack', pending, StepItem(s, indent, text))
  {
    hide *;
    StepItemCases(s, indent, text);
    var found;
    found, stack', more := FindList(stack, pending, indent, objs, s);
    if found {
      ghost var open := OpenList(s, indent).value;
      if text == "" || EndsInColon(text) {
        var child := AppendChild(stack', pending, indent, text, objs + more, open);
        stack' := stack' + [Level(indent + 2, child)];
        assert objs + more + [child] == objs + (more + [child]);
        more := more + [child];
      } else {
        AppendScalar(stack', pending, indent, text, objs + more, open);
      }
    }
  }

  /**
   * The parser. The root it returns, and every container reachable from it, holds what the
   * state machine over lines says it should.
   */
  method ParseSimpleYaml(text: string) returns (root: Container, ghost objs: seq<Container>)
    ensures fresh(objs) && objs != [] && root == objs[0]
    ensures Valid(Start) && Mirrors(objs, Run(Start, SplitLines(text)).store)
    ensures Holds(root, ParseText(text))
  {
    hide *;
    ParseTextReads(text);
    root := new Container(false);
    objs := [root];
    StartLinked(root);
    var lines := SplitLines(text);
    var stack, pending: Option<Waiting> := [Level(0, root)], None;
    ghost var s := Start;
    assert lines[0..] == lines;
    for i := 0 to |lines|
      invariant fresh(objs) && objs != [] && root == objs[0]
      invariant Valid(s) && Linked(objs, stack, pending, s)
      invariant Run(s, lines[i..]) == Run(Start, lines) && |s.store| > 0 && s.store[0].MapNode?
    {
      ghost var more;
      RunNext(s, lines, i);
      stack, pending, more := ParseLine(lines[i], stack, pending, objs, s);
      objs := objs + more;
      s := Step(s, lines[i]);
    }
    assert lines[|lines|..] == [];
    RunNothing(s);
    RootHolds(objs, stack, pending, s);
  }

  lemma ParseTextReads(text: string)
    ensures Valid(Start) && |Start.store| == 1 && Start.store[0].MapNode?
    ensures |Run(Start, SplitLines(text)).store| > 0 && Run(Start, SplitLines(text)).store[0].MapNode?
    ensures ParseText(text) == Tree(Run(Start, SplitLines(text)))
  {
    StartIsValid();
    hide StoreOk, StackOk, PendingOk, Tree;
  }

  lemma RunNext(s: State, lines: seq<string>, i: nat)
    requires Valid(s) && i < |lines| && |s.store| > 0 && s.store[0].MapNode?
    ensures |Step(s, lines[i]).store| > 0 && Step(s, lines[i]).store[0].MapNode?
    ensures Run(s, lines[i..]) == Run(Step(s, lines[i]), lines[i + 1..])
  {
    hide Step;
    assert lines[i..][0] == lines[i] && lines[i..][1..] == lines[i + 1..];
  }

  lemma RunNothing(s: State)
    requires Valid(s)
    ensures Run(s, []) == s
  {
  }

  lemma StartLinked(root: Container)
    requires !root.isList && root.slots == []
    ensures Linked([root], [Level(0, root)], None, Start)
  {
  }

  /** After the last line, the root object holds what the store's root says. */
  lemma RootHolds(objs: seq<Container>, stack: seq<Level>, pending: Option<Waiting>, s: State)
    requires Valid(s) && Linked(objs, stack, pending, s) && objs != [] && s.store[0].MapNode?
    ensures Mirrors(objs, s.store) && Holds(objs[0], Tree(s))
  {
    assert NodeOk(s.store, 0) && MirrorNode(objs, Shapes(objs)[0], s.store[0]);
    HoldsFields(objs, s.store, objs[0].slots, s.store[0].fields, 0);
  }

  // ---------------------------------------------------------------- what a tree of objects says

  /** The object graph under `c`, read as a tree, is the mapping `es`. */
  ghost predicate Holds(c: Container, es: seq<Entry>)
    reads *
    decreases es, 1
  {
    !c.isList && HoldsSlots(c.slots, es)
  }

  ghost predicate HoldsSlots(slots: seq<Slot>, es: seq<Entry>)
    reads *
    decreases es, 0
  {
    && |slots| == |es|
    && forall i :: 0 <= i < |es| ==> slots[i].key == es[i].key && HoldsValue(slots[i].value, es[i].value)
  }

  ghost predicate HoldsValue(p: PyRef, v: Value)
    reads *
    decreases v, 0
  {
    match v
    case Leaf(x) => p == Direct(x)
    case Mapping(es) => p.Object? && Holds(p.c, es)
    case Listing(items) =>
      && p.Object? && p.c.isList && |p.c.elements| == |items|
      && forall i :: 0 <= i < |items| ==> HoldsItem(p.c.elements[i], items[i])
  }

  ghost predicate HoldsItem(p: PyRef, item: Item)
    reads *
    decreases item, 0
  {
    match item
    case ScalarItem(x) => p == Direct(x)
    case MapItem(es) => p.Object? && Holds(p.c, es)
  }

  lemma {:induction false} HoldsFields(objs: seq<Container>, store: seq<Node>, slots: seq<Slot>, fields: seq<Field>, low: nat)
    requires StoreOk(store) && Mirrors(objs, store) && low < |store| && FieldsAbove(store, fields, low)
    requires MirrorSlots(objs, slots, fields)
    ensures HoldsSlots(slots, ReadFields(store, fields, low))
    decreases |store| - low, |fields|
  {
    if fields != [] {
      var n := |fields| - 1;
      HoldsFields(objs, store, slots[..n], fields[..n], low);
      if fields[n].value.Handle? {
        HoldsHandle(objs, store, fields[n].value.id, low);
      }
    }
  }

  lemma {:induction false} HoldsHandle(objs: seq<Container>, store: seq<Node>, id: nat, low: nat)
    requires StoreOk(store) && Mirrors(objs, store) && low < id < |store|
    ensures HoldsValue(Object(objs[id]), ReadRef(store, Handle(id), low))
    decreases |store| - low, 0
  {
    assert NodeOk(store, id) && MirrorNode(objs, Shapes(objs)[id], store[id]);
    match store[id] {
      case MapNode(fields) => HoldsFields(objs, store, objs[id].slots, fields, id);
      case ListNode(items) => HoldsItems(objs, store, objs[id].elements, items, id);
    }
  }

  lemma {:induction false} HoldsItems(objs: seq<Container>, store: seq<Node>, elements: seq<PyRef>, items: seq<Ref>, low: nat)
    requires StoreOk(store) && Mirrors(objs, store) && low < |store| && ItemsAbove(store, items, low)
    requires MirrorElements(objs, elements, items)
    ensures forall i :: 0 <= i < |items| ==> HoldsItem(elements[i], ReadItems(store, items, low)[i])
    decreases |store| - low, |items|
  {
    if items != [] {
      var n := |items| - 1;
      HoldsItems(objs, store, elements[..n], items[..n], low);
      if items[n].Handle? {
        var id := items[n].id;
        assert NodeOk(store, id) && MirrorNode(objs, Shapes(objs)[id], store[id]);
        HoldsFields(objs, store, objs[id].slots, store[id].fields, id);
      }
    }
  }
}
