/** Template instantiation: filling a template's slots, and overriding fields of its nodes. */
module TemplateSlots {
  import opened Json

  /** A string field: empty when missing, an error (None) when it holds something else. */
  function StringField(fields: Fields, key: string): Option<string> {
    match Child(fields, key)
    case None => Some("")
    case Some(String(s)) => Some(s)
    case _ => None
  }

  const CHILDREN := "children"

  // ---- Slots: what the expansion should be ----

  predicate IsSlot(child: Json) {
    child.Object? && StringField(child.fields, "type") == Some("slot")
  }

  /** What stands in for a slot: the provided value of that id, else the slot's own children, else nothing. */
  function Replacement(slot: Json, slots: Fields): Option<Json>
    requires slot.Object?
  {
    var id := StringField(slot.fields, "id");
    if id.Some? && Has(slots, id.value) then Get(slots, id.value) else Child(slot.fields, CHILDREN)
  }

  predicate SlotOk(slot: Json, slots: Fields)
    requires slot.Object?
  {
    var id, r := StringField(slot.fields, "id"), Replacement(slot, slots);
    id.Some? && id.value != "" && (r.Some? ==> r.value.Array?)
  }

  function SlotItems(slot: Json, slots: Fields): seq<Json>
    requires slot.Object?
  {
    match Replacement(slot, slots)
    case Some(Array(items)) => items
    case _ => []
  }

  function SlotId(slot: Json): string
    requires slot.Object?
  {
    var id := StringField(slot.fields, "id");
    if id.Some? then id.value else ""
  }

  /** A child that is not a slot but has an array of children to look into. */
  predicate HasNested(child: Json) {
    child.Object? && !IsSlot(child) && Has(child.fields, CHILDREN) && Get(child.fields, CHILDREN).value.Array?
  }

  function Nested(child: Json): (list: Json)
    requires HasNested(child)
    ensures list.Array? && list < child
  {
    Get(child.fields, CHILDREN).value
  }

  /** The children from position `i` on with every slot replaced in place, at every depth; all else in its order. */
  function Filled(list: Json, i: nat, slots: Fields): seq<Json>
    requires list.Array? && i <= |list.items|
    decreases list, |list.items| - i
  {
    if i == |list.items| then [] else ChildFilled(list.items[i], slots) + Filled(list, i + 1, slots)
  }

  function ChildFilled(child: Json, slots: Fields): seq<Json>
    decreases child
  {
    if IsSlot(child) then SlotItems(child, slots)
    else if HasNested(child) then [Object(Put(child.fields, CHILDREN, Array(Filled(Nested(child), 0, slots))))]
    else [child]
  }

  /** Ids of all slots in visiting order. */
  function SlotIds(list: Json, i: nat): seq<string>
    requires list.Array? && i <= |list.items|
    decreases list, |list.items| - i
  {
    if i == |list.items| then [] else ChildIds(list.items[i]) + SlotIds(list, i + 1)
  }

  function ChildIds(child: Json): seq<string>
    decreases child
  {
    if IsSlot(child) then [SlotId(child)] else if HasNested(child) then SlotIds(Nested(child), 0) else []
  }

  predicate SlotsOk(list: Json, i: nat, slots: Fields)
    requires list.Array? && i <= |list.items|
    decreases list, |list.items| - i
  {
    i < |list.items| ==> ChildOk(list.items[i], slots) && SlotsOk(list, i + 1, slots)
  }

  predicate ChildOk(child: Json, slots: Fields)
    decreases child
  {
    (IsSlot(child) ==> SlotOk(child, slots)) && (HasNested(child) ==> SlotsOk(Nested(child), 0, slots))
  }

  predicate Distinct(ids: seq<string>) {
    forall i, j :: 0 <= i < j < |ids| ==> ids[i] != ids[j]
  }

  function Members(ids: seq<string>): set<string> {
    set i | 0 <= i < |ids| :: ids[i]
  }

  predicate Fresh(ids: seq<string>, declared: set<string>) {
    Distinct(ids) && Members(ids) !! declared
  }

  predicate Good(list: Json, i: nat, slots: Fields, declared: set<string>)
    requires list.Array? && i <= |list.items|
  {
    SlotsOk(list, i, slots) && Fresh(SlotIds(list, i), declared)
  }

  lemma FreshConcat(a: seq<string>, b: seq<string>, declared: set<string>)
    ensures Fresh(a + b, declared) <==> Fresh(a, declared) && Fresh(b, declared + Members(a))
    ensures Members(a + b) == Members(a) + Members(b)
  {
    var c := a + b;
    assert forall i :: 0 <= i < |a| ==> c[i] == a[i];
    assert forall i :: 0 <= i < |b| ==> c[|a| + i] == b[i];
    if Fresh(a + b, declared) {
      assert forall i :: 0 <= i < |a| ==> a[i] in Members(c);
      assert forall i :: 0 <= i < |b| ==> b[i] in Members(c);
      forall i, j | 0 <= i < j < |b| ensures b[i] != b[j] {
        assert c[|a| + i] != c[|a| + j];
      }
    }
    if Fresh(a, declared) && Fresh(b, declared + Members(a)) {
      forall i, j | 0 <= i < j < |c| ensures c[i] != c[j] {
        if i < |a| <= j {
          assert c[i] in Members(a) && c[j] in Members(b);
        } else if |a| <= i {
          assert c[i] == b[i - |a|] && c[j] == b[j - |a|];
        }
      }
    }
    forall x ensures x in Members(c) <==> x in Members(a) + Members(b) {
      if x in Members(a) {
        var i :| 0 <= i < |a| && a[i] == x;
        assert c[i] == x;
      }
      if x in Members(b) {
        var i :| 0 <= i < |b| && b[i] == x;
        assert c[|a| + i] == x;
      }
    }
  }

  predicate ChildGood(child: Json, slots: Fields, declared: set<string>) {
    ChildOk(child, slots) && Fresh(ChildIds(child), declared)
  }

  lemma GoodStep(list: Json, i: nat, slots: Fields, declared: set<string>)
    requires list.Array? && i < |list.items|
    ensures var child, ids := list.items[i], ChildIds(list.items[i]);
            && SlotIds(list, i) == ids + SlotIds(list, i + 1)
            && Filled(list, i, slots) == ChildFilled(child, slots) + Filled(list, i + 1, slots)
            && (Good(list, i, slots, declared) <==>
                  ChildGood(child, slots, declared) && Good(list, i + 1, slots, declared + Members(ids)))
            && Members(SlotIds(list, i)) == Members(ids) + Members(SlotIds(list, i + 1))
  {
    hide IsSlot, HasNested, SlotOk, Fresh, Members;
    FreshConcat(ChildIds(list.items[i]), SlotIds(list, i + 1), declared);
  }

  datatype Expanded = Expanded(children: seq<Json>, declared: set<string>) | Refused

  method ExpandChild(child: Json, slots: Fields, declared: set<string>) returns (r: Expanded)
    ensures r.Expanded? <==> ChildGood(child, slots, declared)
    ensures r.Expanded? ==> r == Expanded(ChildFilled(child, slots), declared + Members(ChildIds(child)))
    decreases child
  {
    hide SlotOk, Fresh, Members, Replacement;
    if IsSlot(child) {
      FreshOne(SlotId(child), declared);
      SlotKind(child);
      if !SlotOk(child, slots) || SlotId(child) in declared {
        return Refused;
      }
      return Expanded(SlotItems(child, slots), declared + {SlotId(child)});
    }
    if HasNested(child) {
      var inner := ExpandTemplateSlotsInChildren(Nested(child), slots, declared);
      GoodIs(Nested(child), slots, declared);
      if inner.Refused? {
        return Refused;
      }
      return Expanded([Object(Put(child.fields, CHILDREN, Array(inner.children)))], inner.declared);
    }
    FreshNone(declared);
    r := Expanded([child], declared);
  }

  /**
   * The recursive loop: succeeds exactly on well-formed slots with ids not used before, and gives the filled
   * children.
   */
  method ExpandTemplateSlotsInChildren(list: Json, slots: Fields, declared: set<string>) returns (r: Expanded)
    requires list.Array?
    ensures r.Expanded? <==> Good(list, 0, slots, declared)
    ensures r.Expanded? ==> r == Expanded(Filled(list, 0, slots), declared + Members(SlotIds(list, 0)))
    decreases list
  {
    hide ChildGood, ChildFilled, ChildIds, Members, Good, Filled, SlotIds;
    var expanded: seq<Json> := [];
    var seen := declared;
    assert [] + Filled(list, 0, slots) == Filled(list, 0, slots);
    for i := 0 to |list.items|
      invariant Good(list, i, slots, seen) <==> Good(list, 0, slots, declared)
      invariant expanded + Filled(list, i, slots) == Filled(list, 0, slots)
      invariant seen + Members(SlotIds(list, i)) == declared + Members(SlotIds(list, 0))
    {
      GoodStep(list, i, slots, seen);
      var child := ExpandChild(list.items[i], slots, seen);
      if child.Refused? {
        return Refused;
      }
      assert expanded + (child.children + Filled(list, i + 1, slots)) == expanded + child.children
             + Filled(list, i + 1, slots);
      seen := child.declared;
      expanded := expanded + child.children;
    }
    EndOfChildren(list, slots, seen);
    r := Expanded(expanded, seen);
  }

  lemma SlotKind(child: Json)
    ensures IsSlot(child) ==> child.Object? && !HasNested(child)
  {
  }

  lemma FreshOne(id: string, declared: set<string>)
    ensures Fresh([id], declared) <==> id !in declared
    ensures Members([id]) == {id}
  {
    assert [id][0] in Members([id]);
  }

  lemma FreshNone(declared: set<string>)
    ensures Fresh([], declared) && Members([]) == {} && declared + {} == declared
  {
  }

  lemma GoodIs(list: Json, slots: Fields, declared: set<string>)
    requires list.Array?
    ensures Good(list, 0, slots, declared) <==> SlotsOk(list, 0, slots) && Fresh(SlotIds(list, 0), declared)
  {
  }

  lemma EndOfChildren(list: Json, slots: Fields, declared: set<string>)
    requires list.Array?
    ensures Good(list, |list.items|, slots, declared) && Filled(list, |list.items|, slots) == []
    ensures declared + Members(SlotIds(list, |list.items|)) == declared
  {
  }

  // ---- A template's root ----

  predicate AllDeclared(slots: Fields, ids: seq<string>) {
    forall i :: 0 <= i < |slots| ==> slots[i].key in ids
  }

  function SlotsApplied(root: Fields, slots: Fields): Option<Fields> {
    if Has(root, CHILDREN) && Get(root, CHILDREN).value.Array? then
      var list := Get(root, CHILDREN).value;
      if Good(list, 0, slots, {}) && AllDeclared(slots, SlotIds(list, 0))
      then Some(Put(root, CHILDREN, Array(Filled(list, 0, slots)))) else None
    else if slots == [] then Some(root) else None
  }

  /** No provided slot is dropped, and none is used twice: each is the id of exactly one slot of the template. */
  lemma EveryProvidedSlotOnce(root: Fields, slots: Fields, k: nat) returns (at: nat)
    requires SlotsApplied(root, slots).Some? && k < |slots|
    ensures Has(root, CHILDREN) && Get(root, CHILDREN).value.Array?
    ensures var ids := SlotIds(Get(root, CHILDREN).value, 0);
            at < |ids| && ids[at] == slots[k].key && forall j :: 0 <= j < |ids| && ids[j] == slots[k].key ==> j == at
  {
    hide SlotIds, SlotsOk, Filled;
    var ids := SlotIds(Get(root, CHILDREN).value, 0);
    assert slots[k].key in ids;
    at :| 0 <= at < |ids| && ids[at] == slots[k].key;
  }

  method ApplyTemplateSlots(root: Fields, slots: Fields) returns (r: Option<Fields>)
    ensures r == SlotsApplied(root, slots)
  {
    hide SlotIds, SlotsOk, Filled, Good;
    var declared: set<string> := {};
    r := Some(root);
    ghost var ids: seq<string> := [];
    var at := IndexOf(root, CHILDREN);
    if at < |root| && root[at].value.Array? {
      var expanded := ExpandTemplateSlotsInChildren(root[at].value, slots, {});
      if expanded.Refused? {
        return None;
      }
      ids := SlotIds(root[at].value, 0);
      declared := expanded.declared;
      r := Some(Put(root, CHILDREN, Array(expanded.children)));
    }
    for i := 0 to |slots|
      invariant forall j :: 0 <= j < i ==> slots[j].key in ids
    {
      assert slots[i].key in declared <==> slots[i].key in ids;
      if slots[i].key !in declared {
        return None;
      }
    }
    if slots != [] {
      assert slots[0].key in ids;
    }
  }

  // ---- Overrides ----

  const FORBIDDEN := {"id", "type", "children", "node", "templateId", "template_id", "overrides", "slots"}

  /** One entry of an override: objects are merged, everything else replaced. */
  function Written(target: Fields, e: Entry): Json {
    var own := Get(target, e.key);
    if own.Some? && own.value.Object? && e.value.Object? then Merged(own.value, e.value) else e.value
  }

  function PutEntry(target: Fields, e: Entry): Fields {
    Put(target, e.key, Written(target, e))
  }

  function PutEntries(target: Fields, entries: Fields): Option<Fields>
    decreases |entries|
  {
    if entries == [] then Some(target)
    else if entries[0].key in FORBIDDEN then None
    else PutEntries(PutEntry(target, entries[0]), entries[1..])
  }

  /** First child object with this id; nothing when there is none. */
  function ChildNamed(items: seq<Json>, id: string): (i: nat)
    ensures i <= |items| && (i < |items| ==> items[i].Object?)
  {
    if items == [] || (items[0].Object? && StringField(items[0].fields, "id") == Some(id)) then 0
    else 1 + ChildNamed(items[1..], id)
  }

  /** An override of the node that the ids in `parts` lead to. */
  function Overridden(root: Fields, parts: seq<string>, entries: Fields): Option<Fields>
    decreases |parts|
  {
    if parts == [] then PutEntries(root, entries)
    else if !Has(root, CHILDREN) || !Get(root, CHILDREN).value.Array? then None
    else
      var items := Get(root, CHILDREN).value.items;
      var i := ChildNamed(items, parts[0]);
      if i == |items| then None
      else
        match Overridden(items[i].fields, parts[1..], entries)
        case None => None
        case Some(after) => Some(Put(root, CHILDREN, Array(items[i := Object(after)])))
  }

  /** The node the ids in `parts` lead to. */
  function Target(root: Fields, parts: seq<string>): Option<Fields>
    decreases |parts|
  {
    if parts == [] then Some(root)
    else if !Has(root, CHILDREN) || !Get(root, CHILDREN).value.Array? then None
    else
      var items := Get(root, CHILDREN).value.items;
      var i := ChildNamed(items, parts[0]);
      if i == |items| then None else Target(items[i].fields, parts[1..])
  }

  /** What the parser takes a node's structure from, found under any spelling of the key. */
  datatype Outline = NotANode | Outline(id: Option<Json>, kind: Option<Json>, children: Children)

  datatype Children = Other(raw: Option<Json>) | Nodes(nodes: seq<Outline>)

  function OutlineOf(node: Json): Outline
    decreases node, 1
  {
    if !node.Object? then NotANode
    else
      var i := FindKey(node.fields, CHILDREN);
      Outline(Child(node.fields, "id"), Child(node.fields, "type"),
              if i < |node.fields| && node.fields[i].value.Array? then Nodes(OutlinesFrom(node.fields[i].value, 0))
              else Other(Child(node.fields, CHILDREN)))
  }

  function OutlinesFrom(list: Json, i: nat): seq<Outline>
    requires list.Array? && i <= |list.items|
    decreases list, 0, |list.items| - i
  {
    if i == |list.items| then [] else [OutlineOf(list.items[i])] + OutlinesFrom(list, i + 1)
  }

  const STRUCTURAL := {"id", "type", "children"}

  /** Writing under `key` cannot be taken for writing under `k`: `k` itself is there, or an earlier spelling of it. */
  predicate HarmlessFor(target: Fields, key: string, k: string) {
    Has(target, k) || Normalized(key) != k || FirstSpelled(target, k) < IndexOf(target, key)
  }

  /** Writing under this key cannot be taken for writing the node's id, type or children. */
  predicate Harmless(target: Fields, key: string) {
    forall k :: k in STRUCTURAL ==> HarmlessFor(target, key, k)
  }

  predicate AllHarmless(target: Fields, entries: Fields) {
    forall i :: 0 <= i < |entries| ==> Harmless(target, entries[i].key)
  }

  lemma HasAfterPut(fields: Fields, key: string, value: Json, k: string)
    ensures Has(Put(fields, key, value), k) <==> Has(fields, k) || k == key
  {
    PutGets(fields, key, value, k);
  }

  lemma {:induction false} SpelledAfterPut(fields: Fields, key: string, value: Json, k: string)
    requires Normalized(key) != k
    ensures FirstSpelled(fields, k) < |fields| ==> FirstSpelled(Put(fields, key, value), k) == FirstSpelled(fields, k)
    ensures FirstSpelled(fields, k) == |fields| ==>
      FirstSpelled(Put(fields, key, value), k) == |Put(fields, key, value)|
    decreases |fields|
  {
    hide Normalized;
    var after := Put(fields, key, value);
    if fields != [] && fields[0].key != key {
      SpelledAfterPut(fields[1..], key, value, k);
      assert after[0] == fields[0] && after[1..] == Put(fields[1..], key, value);
    } else if fields != [] {
      assert IndexOf(fields, key) == 0 && after[1..] == fields[1..] && after[0].key == key;
    } else {
      assert after == [Entry(key, value)] && after[1..] == [];
    }
  }

  lemma {:induction false} SpelledAtPut(fields: Fields, key: string, value: Json, k: string)
    requires Normalized(key) == k
    ensures var i, at := FirstSpelled(fields, k), IndexOf(fields, key);
            i <= at && FirstSpelled(Put(fields, key, value), k) == if i < at then i else at
    decreases |fields|
  {
    hide Normalized;
    var after := Put(fields, key, value);
    if fields != [] && fields[0].key != key {
      SpelledAtPut(fields[1..], key, value, k);
      assert after[0] == fields[0] && after[1..] == Put(fields[1..], key, value);
    }
  }

  lemma IndexAfterPut(fields: Fields, key: string, value: Json, other: string)
    ensures IndexOf(Put(fields, key, value), other)
            == if other == key then IndexOf(fields, key)
               else if Has(fields, other) then IndexOf(fields, other) else |Put(fields, key, value)|
  {
    var after, at := Put(fields, key, value), IndexOf(fields, key);
    assert after[at].key == key && forall j :: 0 <= j < |fields| ==> after[j].key == fields[j].key;
  }

  /**
   * Writing one field leaves what is found under a structural key exactly as it was, unless the key can be taken for
   * it.
   */
  lemma PutKeepsChild(fields: Fields, key: string, value: Json, k: string)
    requires '_' !in k && key != k && HarmlessFor(fields, key, k)
    ensures Child(Put(fields, key, value), k) == Child(fields, k)
    ensures Has(fields, k) <==> Has(Put(fields, key, value), k)
  {
    hide Normalized;
    HasAfterPut(fields, key, value, k);
    PutGets(fields, key, value, k);
    var at, after := FirstSpelled(fields, k), Put(fields, key, value);
    if !Has(fields, k) && Normalized(key) != k {
      SpelledAfterPut(fields, key, value, k);
      if at < |fields| {
        assert after[at] == fields[at] by { assert fields[at].key != key; }
      }
    } else if !Has(fields, k) {
      SpelledAtPut(fields, key, value, k);
    }
  }

  /** A harmless write makes no other write harmless or harmful. */
  lemma HarmlessStays(fields: Fields, key: string, value: Json, other: string, k: string)
    requires key != k && HarmlessFor(fields, key, k)
    ensures HarmlessFor(Put(fields, key, value), other, k) <==> HarmlessFor(fields, other, k)
  {
    hide Normalized;
    HasAfterPut(fields, key, value, k);
    IndexAfterPut(fields, key, value, other);
    if !Has(fields, k) && Normalized(key) != k {
      SpelledAfterPut(fields, key, value, k);
    } else if !Has(fields, k) {
      SpelledAtPut(fields, key, value, k);
    }
  }

  lemma {:induction false} NoCapitals(key: string)
    requires forall i :: 0 <= i < |key| ==> !IsUpper(key[i])
    ensures SnakeFrom(key, false) == key
    decreases |key|
  {
    if key != "" {
      NoCapitals(key[1..]);
    }
  }

  lemma PlainSpelling(key: string)
    requires forall i :: 0 <= i < |key| ==> !IsUpper(key[i])
    ensures Normalized(key) == key
  {
    NoCapitals(key);
  }

  lemma StructuralKeys()
    ensures forall k :: k in STRUCTURAL ==> '_' !in k && Normalized(k) == k
  {
    hide Normalized;
    PlainSpelling("id");
    PlainSpelling("type");
    PlainSpelling("children");
  }

  lemma PutKeepsOutline(fields: Fields, key: string, value: Json, other: string)
    requires key !in STRUCTURAL && Harmless(fields, key)
    ensures OutlineOf(Object(Put(fields, key, value))) == OutlineOf(Object(fields))
    ensures Harmless(fields, other) <==> Harmless(Put(fields, key, value), other)
  {
    hide FindKey, Normalized, Put, HarmlessFor;
    StructuralKeys();
    PutKeepsChild(fields, key, value, "id");
    PutKeepsChild(fields, key, value, "type");
    PutKeepsChild(fields, key, value, CHILDREN);
    forall k | k in STRUCTURAL
      ensures HarmlessFor(Put(fields, key, value), other, k) <==> HarmlessFor(fields, other, k)
    {
      HarmlessStays(fields, key, value, other, k);
    }
  }

  lemma {:induction false} EntriesKeepOutline(fields: Fields, entries: Fields)
    requires AllHarmless(fields, entries) && PutEntries(fields, entries).Some?
    ensures OutlineOf(Object(PutEntries(fields, entries).value)) == OutlineOf(Object(fields))
    decreases |entries|
  {
    hide OutlineOf, Harmless, Put;
    if entries != [] {
      var e, value := entries[0], Written(fields, entries[0]);
      PutKeepsOutline(fields, e.key, value, e.key);
      forall i | 0 <= i < |entries[1..]| ensures Harmless(PutEntry(fields, e), entries[1..][i].key) {
        assert entries[1..][i] == entries[i + 1];
        PutKeepsOutline(fields, e.key, value, entries[i + 1].key);
      }
      EntriesKeepOutline(PutEntry(fields, e), entries[1..]);
    }
  }

  lemma {:induction false} OutlinesAt(list: Json, from: nat, i: nat)
    requires list.Array? && from <= i < |list.items|
    ensures |OutlinesFrom(list, from)| == |list.items| - from
    ensures OutlinesFrom(list, from)[i - from] == OutlineOf(list.items[i])
    decreases |list.items| - from
  {
    hide OutlineOf;
    if from < i {
      OutlinesAt(list, from + 1, i);
    } else if from + 1 < |list.items| {
      OutlinesAt(list, from + 1, from + 1);
    }
  }

  /** Replacing one of the children leaves a node's outline exactly when it leaves that child's. */
  lemma ChildrenReplaced(root: Fields, items: seq<Json>, i: nat, node: Json)
    requires Get(root, CHILDREN) == Some(Array(items)) && i < |items|
    ensures OutlineOf(Object(Put(root, CHILDREN, Array(items[i := node])))) == OutlineOf(Object(root)) <==>
            OutlineOf(node) == OutlineOf(items[i])
  {
    hide Normalized, OutlinesFrom;
    var after := Array(items[i := node]);
    LowerCase();
    PutKeepsChild(root, CHILDREN, after, "id");
    PutKeepsChild(root, CHILDREN, after, "type");
    PutGets(root, CHILDREN, after, CHILDREN);
    OutlinesReplaced(items, i, node);
    hide Put;
  }

  lemma OutlinesReplaced(items: seq<Json>, i: nat, node: Json)
    requires i < |items|
    ensures OutlinesFrom(Array(items[i := node]), 0) == OutlinesFrom(Array(items), 0) <==>
            OutlineOf(node) == OutlineOf(items[i])
  {
    hide OutlineOf, OutlinesFrom;
    var a, b := Array(items[i := node]), Array(items);
    forall j | 0 <= j < |items|
      ensures |OutlinesFrom(a, 0)| == |items| == |OutlinesFrom(b, 0)|
      ensures OutlinesFrom(a, 0)[j] == OutlineOf(a.items[j]) && OutlinesFrom(b, 0)[j] == OutlineOf(items[j])
    {
      OutlinesAt(a, 0, j);
      OutlinesAt(b, 0, j);
    }
    assert OutlinesFrom(a, 0)[i] == OutlineOf(node) && OutlinesFrom(b, 0)[i] == OutlineOf(items[i]);
  }

  lemma LowerCase()
    ensures Normalized(CHILDREN) !in {"id", "type"}
  {
    assert Normalized(CHILDREN)[0] == 'c';
  }

  /** An override leaves the outline of the whole template exactly when it leaves that of its target. */
  lemma {:induction false} TargetDecides(root: Fields, parts: seq<string>, entries: Fields)
    requires Overridden(root, parts, entries).Some?
    ensures Target(root, parts).Some? && PutEntries(Target(root, parts).value, entries).Some?
    ensures OutlineOf(Object(Overridden(root, parts, entries).value)) == OutlineOf(Object(root)) <==>
            OutlineOf(Object(PutEntries(Target(root, parts).value, entries).value))
            == OutlineOf(Object(Target(root, parts).value))
    decreases |parts|
  {
    hide OutlineOf, PutEntries, Put;
    if parts != [] {
      var items := Get(root, CHILDREN).value.items;
      var i := ChildNamed(items, parts[0]);
      TargetDecides(items[i].fields, parts[1..], entries);
      ChildrenReplaced(root, items, i, Object(Overridden(items[i].fields, parts[1..], entries).value));
    }
  }

  /** Overrides leave every node's id, type and child structure unchanged when no key of theirs can be taken for one. */
  lemma OverrideKeepsOutline(root: Fields, parts: seq<string>, entries: Fields)
    requires Overridden(root, parts, entries).Some?
    requires Target(root, parts).Some? ==> AllHarmless(Target(root, parts).value, entries)
    ensures OutlineOf(Object(Overridden(root, parts, entries).value)) == OutlineOf(Object(root))
  {
    hide OutlineOf, AllHarmless, PutEntries, Overridden, Target;
    TargetDecides(root, parts, entries);
    EntriesKeepOutline(Target(root, parts).value, entries);
  }

  /** An override succeeds exactly when its target exists and it names no forbidden field. */
  lemma {:induction false} OverrideReachesTarget(root: Fields, parts: seq<string>, entries: Fields)
    ensures Overridden(root, parts, entries).Some? <==>
            Target(root, parts).Some? && forall i :: 0 <= i < |entries| ==> entries[i].key !in FORBIDDEN
    decreases |parts|
  {
    hide Put;
    if parts == [] {
      EntriesAllowed(root, entries);
    } else if Has(root, CHILDREN) && Get(root, CHILDREN).value.Array? {
      var items := Get(root, CHILDREN).value.items;
      var i := ChildNamed(items, parts[0]);
      if i < |items| {
        OverrideReachesTarget(items[i].fields, parts[1..], entries);
      }
    }
  }

  lemma {:induction false} EntriesAllowed(target: Fields, entries: Fields)
    ensures PutEntries(target, entries).Some? <==> forall i :: 0 <= i < |entries| ==> entries[i].key !in FORBIDDEN
    decreases |entries|
  {
    hide PutEntry;
    if entries != [] && entries[0].key !in FORBIDDEN {
      EntriesAllowed(PutEntry(target, entries[0]), entries[1..]);
      forall i | 0 < i < |entries| ensures entries[i] == entries[1..][i - 1] {
      }
    }
  }

  // ---- When a key can be taken for a structural one ----

  /**
   * Writing a field is never noticed under a structural key exactly when it is another key and either the exact key is
   * there, or the spelling differs, or another entry of that spelling comes before.
   */
  lemma WriteUnnoticed(fields: Fields, key: string, k: string)
    requires '_' !in k && Normalized(k) == k
    ensures (forall value :: Child(Put(fields, key, value), k) == Child(fields, k))
            <==> key != k && (Has(fields, k) || Normalized(key) != k || FirstSpelled(fields, k) < IndexOf(fields, key))
  {
    hide Normalized;
    if key != k && HarmlessFor(fields, key, k) {
      forall value ensures Child(Put(fields, key, value), k) == Child(fields, k) {
        PutKeepsChild(fields, key, value, k);
      }
    } else {
      WriteNoticed(fields, key, Null, k);
      WriteNoticed(fields, key, Bool(true), k);
      assert Child(Put(fields, key, Null), k) != Child(Put(fields, key, Bool(true)), k);
    }
  }

  lemma WriteNoticed(fields: Fields, key: string, value: Json, k: string)
    requires '_' !in k && Normalized(k) == k
    requires key == k || (!Has(fields, k) && Normalized(key) == k && IndexOf(fields, key) <= FirstSpelled(fields, k))
    ensures Child(Put(fields, key, value), k) == Some(value)
  {
    hide Normalized;
    PutGets(fields, key, value, k);
    PutGets(fields, key, value, key);
    if key != k {
      HasAfterPut(fields, key, value, k);
      SpelledAtPut(fields, key, value, k);
    }
  }

  /** An override may write "Children", which is not forbidden, and give any childless node children. */
  lemma CapitalisedChildren(leaf: Fields, more: Json)
    requires Child(leaf, CHILDREN).None?
    ensures Overridden(leaf, [], [Entry("Children", more)]) == Some(Put(leaf, "Children", more))
    ensures Child(Put(leaf, "Children", more), CHILDREN) == Some(more)
  {
    hide Put, Normalized;
    var entries := [Entry("Children", more)];
    CapitalSpelling();
    assert entries[1..] == [];
    assert PutEntries(leaf, entries) == PutEntries(PutEntry(leaf, entries[0]), []);
    assert Get(leaf, "Children").None? by {
      assert forall i :: 0 <= i < |leaf| ==> Normalized(leaf[i].key) != CHILDREN;
    }
    WriteNoticed(leaf, "Children", more, CHILDREN);
  }

  lemma CapitalSpelling()
    ensures Normalized("Children") == CHILDREN == Normalized(CHILDREN)
    ensures "Children" !in FORBIDDEN && '_' !in CHILDREN
  {
    assert "Children"[1..] == "hildren" && CHILDREN[1..] == "hildren";
    NoCapitals("hildren");
    assert "Children"[0] == 'C';
  }

  // ---- Loops ----

  /** Path parts of an override: empty parts between slashes are skipped. */
  function PathParts(path: string, current: string): seq<string>
    decreases |path|
  {
    if path == "" then if current == "" then [] else [current]
    else if path[0] == '/' then (if current == "" then [] else [current]) + PathParts(path[1..], "")
    else PathParts(path[1..], current + [path[0]])
  }

  method SplitTemplatePath(path: string) returns (parts: seq<string>)
    ensures parts == PathParts(path, "")
  {
    parts := [];
    var current := "";
    assert path[0..] == path;
    for i := 0 to |path|
      invariant parts + PathParts(path[i..], current) == PathParts(path, "")
    {
      assert path[i..][0] == path[i] && path[i..][1..] == path[i + 1..];
      if path[i] == '/' {
        if current != "" {
          assert parts + ([current] + PathParts(path[i + 1..], "")) == parts + [current] + PathParts(path[i + 1..], "");
          parts := parts + [current];
          current := "";
        } else {
          assert [] + PathParts(path[i + 1..], "") == PathParts(path[i + 1..], "");
        }
        continue;
      }
      current := current + [path[i]];
    }
    if current != "" {
      parts := parts + [current];
    }
  }

  function OverrideParts(key: string): seq<string> {
    if key == "." then [] else PathParts(key, "")
  }

  /** One override; a leading slash in its path or a value that is not an object is an error. */
  function OneApplied(root: Fields, e: Entry): Option<Fields> {
    if !e.value.Object? || (e.key != "" && e.key != "." && e.key[0] == '/') then None
    else Overridden(root, OverrideParts(e.key), e.value.fields)
  }

  /** One override after the other. */
  function OverridesApplied(root: Fields, overrides: Fields): Option<Fields>
    decreases |overrides|
  {
    if overrides == [] then Some(root)
    else
      match OneApplied(root, overrides[0])
      case None => None
      case Some(after) => OverridesApplied(after, overrides[1..])
  }

  /** An override that is applied writes no key that can be taken for a structural one of its target. */
  predicate OneHarmless(root: Fields, e: Entry) {
    OneApplied(root, e).Some? && Target(root, OverrideParts(e.key)).Some? ==>
      AllHarmless(Target(root, OverrideParts(e.key)).value, e.value.fields)
  }

  /** Every override of the list, when its turn comes, is harmless. */
  predicate HarmlessRun(root: Fields, overrides: Fields)
    decreases |overrides|
  {
    overrides == [] ||
    (OneHarmless(root, overrides[0]) &&
     (OneApplied(root, overrides[0]).Some? ==> HarmlessRun(OneApplied(root, overrides[0]).value, overrides[1..])))
  }

  /** A whole list of overrides leaves every node's id, type and child structure unchanged. */
  lemma {:induction false} OverridesKeepOutline(root: Fields, overrides: Fields)
    requires OverridesApplied(root, overrides).Some? && HarmlessRun(root, overrides)
    ensures OutlineOf(Object(OverridesApplied(root, overrides).value)) == OutlineOf(Object(root))
    decreases |overrides|
  {
    hide OutlineOf, AllHarmless, Overridden, Target, PathParts;
    if overrides != [] {
      OverrideKeepsOutline(root, OverrideParts(overrides[0].key), overrides[0].value.fields);
      OverridesKeepOutline(OneApplied(root, overrides[0]).value, overrides[1..]);
    }
  }

  /** No key of any override is spelled like "id", "type" or "children". */
  predicate NothingStructural(overrides: Fields) {
    forall i, j :: 0 <= i < |overrides| && overrides[i].value.Object? && 0 <= j < |overrides[i].value.fields| ==>
      Normalized(overrides[i].value.fields[j].key) !in STRUCTURAL
  }

  lemma {:induction false} NothingStructuralIsHarmless(root: Fields, overrides: Fields)
    requires NothingStructural(overrides)
    ensures HarmlessRun(root, overrides)
    decreases |overrides|
  {
    hide Overridden, Target, PathParts, Normalized;
    if overrides != [] {
      assert forall i :: 0 <= i < |overrides[1..]| ==> overrides[1..][i] == overrides[i + 1];
      if OneApplied(root, overrides[0]).Some? {
        NothingStructuralIsHarmless(OneApplied(root, overrides[0]).value, overrides[1..]);
      }
    }
  }

  method MergeEntries(target: Fields, entries: Fields) returns (r: Option<Fields>)
    ensures r == PutEntries(target, entries)
  {
    var after := target;
    assert entries[0..] == entries;
    for i := 0 to |entries|
      invariant PutEntries(after, entries[i..]) == PutEntries(target, entries)
    {
      var e := entries[i];
      assert entries[i..][1..] == entries[i + 1..];
      if e.key in FORBIDDEN {
        return None;
      }
      var at := IndexOf(after, e.key);
      if at < |after| && after[at].value.Object? && e.value.Object? {
        var merged := MergeJson(after[at].value, e.value);
        after := Put(after, e.key, merged);
      } else {
        after := Put(after, e.key, e.value);
      }
    }
    r := Some(after);
  }

  method FindChildNamed(items: seq<Json>, id: string) returns (i: nat)
    ensures i == ChildNamed(items, id)
  {
    i := 0;
    assert items[0..] == items;
    while i < |items|
      invariant i <= |items| && i + ChildNamed(items[i..], id) == ChildNamed(items, id)
    {
      assert items[i..][1..] == items[i + 1..];
      if items[i].Object? && StringField(items[i].fields, "id") == Some(id) {
        return;
      }
      i := i + 1;
    }
  }

  method ApplyOverride(root: Fields, parts: seq<string>, entries: Fields) returns (r: Option<Fields>)
    ensures r == Overridden(root, parts, entries)
    decreases |parts|
  {
    hide PutEntries, ChildNamed, Put;
    if parts == [] {
      r := MergeEntries(root, entries);
      return;
    }
    var at := IndexOf(root, CHILDREN);
    if at == |root| || !root[at].value.Array? {
      return None;
    }
    var items := root[at].value.items;
    var i := FindChildNamed(items, parts[0]);
    if i == |items| {
      return None;
    }
    var after := ApplyOverride(items[i].fields, parts[1..], entries);
    if after.None? {
      return None;
    }
    r := Some(Put(root, CHILDREN, Array(items[i := Object(after.value)])));
  }

  method ApplyTemplateOverrides(root: Fields, overrides: Fields) returns (r: Option<Fields>)
    ensures r == OverridesApplied(root, overrides)
  {
    hide Overridden;
    var after := root;
    assert overrides[0..] == overrides;
    for i := 0 to |overrides|
      invariant OverridesApplied(after, overrides[i..]) == OverridesApplied(root, overrides)
    {
      var e := overrides[i];
      assert overrides[i..][1..] == overrides[i + 1..];
      if !e.value.Object? || (e.key != "" && e.key != "." && e.key[0] == '/') {
        return None;
      }
      var parts := [];
      if e.key != "." {
        parts := SplitTemplatePath(e.key);
      }
      var one := ApplyOverride(after, parts, e.value.fields);
      if one.None? {
        return None;
      }
      after := one.value;
    }
    r := Some(after);
  }
}
