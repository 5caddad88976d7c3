/** Parsing view nodes: template references are expanded with a stack that refuses to enter a template twice. */
module TemplateExpansion {
  import opened Json
  import opened TemplateMeaning
  import opened TemplateSlots

  /** The template assets, and everything else the parser demands of a node's fields. */
  datatype World = World(templates: map<string, Fields>, accepts: Fields -> bool)

  datatype View = View(id: string, kind: string, children: seq<View>)

  datatype Parsed = Parsed(view: View) | Cycle(template: string) | Bad

  datatype ParsedList = Views(views: seq<View>) | ListCycle(template: string) | ListBad

  /** An object field that may be missing. */
  function Optional(fields: Fields, key: string): Option<Fields> {
    match Child(fields, key)
    case None => Some([])
    case Some(Object(o)) => Some(o)
    case _ => None
  }

  /** The node a reference stands for: the template under the reference's id, slots filled, overrides applied. */
  function Prepared(template: Fields, id: string, object_: Fields): Option<Fields> {
    var slots, overrides := Optional(object_, "slots"), Optional(object_, "overrides");
    if slots.None? then None
    else
      var filled := SlotsApplied(Put(template, "id", String(id)), slots.value);
      if filled.None? || overrides.None? then None else OverridesApplied(filled.value, overrides.value)
  }

  function Stacked(stack: seq<string>): set<string> {
    set i | 0 <= i < |stack| :: stack[i]
  }

  /** Templates that may still be entered. */
  function Left(w: World, stack: seq<string>): nat {
    |w.templates.Keys - Stacked(stack)|
  }

  lemma EnteringLeavesFewer(w: World, stack: seq<string>, template: string)
    requires template in w.templates && template !in stack
    ensures Left(w, stack + [template]) < Left(w, stack)
  {
    var all, after := w.templates.Keys, stack + [template];
    assert after[|stack|] == template;
    assert forall i :: 0 <= i < |stack| ==> after[i] == stack[i];
    forall x ensures x in Stacked(after) <==> x in Stacked(stack) || x == template {
      if x in Stacked(stack) {
        var i :| 0 <= i < |stack| && stack[i] == x;
        assert after[i] == x;
      }
    }
    assert all - Stacked(after) == (all - Stacked(stack)) - {template};
    assert template in all - Stacked(stack);
  }

  // ---- What the parser does ----

  function ParseRef(w: World, node: Json, stack: seq<string>): Parsed
    requires node.Object?
    decreases Left(w, stack), node, 2, 0
  {
    var id, template := StringField(node.fields, "id"), StringField(node.fields, "templateId");
    if id.None? || template.None? || template.value !in w.templates then Bad
    else if template.value in stack then Cycle(template.value)
    else
      var prepared := Prepared(w.templates[template.value], id.value, node.fields);
      EnteringLeavesFewer(w, stack, template.value);
      if prepared.None? then Bad else ParseView(w, Object(prepared.value), stack + [template.value])
  }

  function ParseView(w: World, node: Json, stack: seq<string>): Parsed
    requires node.Object?
    decreases Left(w, stack), node, 1, 0
  {
    var id, kind, at := StringField(node.fields, "id"), StringField(node.fields, "type"),
        FindKey(node.fields, CHILDREN);
    if id.None? || kind.None? || !w.accepts(node.fields) then Bad
    else if at == |node.fields| then Parsed(View(id.value, kind.value, []))
    else if !node.fields[at].value.Array? then Bad
    else
      match ParseChildren(w, node.fields[at].value, 0, stack)
      case Views(views) => Parsed(View(id.value, kind.value, views))
      case ListCycle(t) => Cycle(t)
      case ListBad => Bad
  }

  function ParseChildren(w: World, list: Json, i: nat, stack: seq<string>): ParsedList
    requires list.Array? && i <= |list.items|
    decreases Left(w, stack), list, 0, |list.items| - i
  {
    if i == |list.items| then Views([])
    else
      var child := list.items[i];
      var one := if !child.Object? then Bad else ParseChild(w, child, stack);
      match one
      case Cycle(t) => ListCycle(t)
      case Bad => ListBad
      case Parsed(view) =>
        if view.kind == "screen" then ListBad
        else
          match ParseChildren(w, list, i + 1, stack)
          case Views(views) => Views([view] + views)
          case failed => failed
  }

  function ParseChild(w: World, child: Json, stack: seq<string>): Parsed
    requires child.Object?
    decreases Left(w, stack), child, 3, 0
  {
    match StringField(child.fields, "type")
    case None => Bad
    case Some(kind) =>
      if kind == "slot" then Bad
      else if kind == "templateRef" then ParseRef(w, child, stack)
      else ParseView(w, child, stack)
  }

  // ---- What a reference means, in terms of lookups ----

  /** The template with its id replaced. */
  predicate Renamed(template: Fields, id: string, root: Fields) {
    && KeepsOrder(template, root) && |root| <= |template| + 1
    && Get(root, "id") == Some(String(id))
    && forall i :: 0 <= i < |template| && template[i].key != "id" ==>
         Get(root, template[i].key) == Get(template, template[i].key)
  }

  /** The object a reference stands for: the template renamed, its slots filled, then the overrides done in turn. */
  ghost predicate Instance(template: Fields, id: string, slots: Fields, overrides: Fields, result: Option<Fields>) {
    exists root, filled ::
      && Renamed(template, id, root) && SlotsMean(root, slots, filled)
      && match filled case Some(after) => OverridesMean(after, overrides, result) case None => result.None?
  }

  predicate TextOrMissing(fields: Fields, key: string) {
    Child(fields, key).Some? ==> Child(fields, key).value.String?
  }

  predicate ObjectOrMissing(fields: Fields, key: string) {
    Child(fields, key).Some? ==> Child(fields, key).value.Object?
  }

  function Text(fields: Fields, key: string): string
    requires TextOrMissing(fields, key)
  {
    if Child(fields, key).Some? then Child(fields, key).value.s else ""
  }

  function Entries(fields: Fields, key: string): Fields
    requires ObjectOrMissing(fields, key)
  {
    if Child(fields, key).Some? then Child(fields, key).value.fields else []
  }

  /** What parsing a reference must give: an error, or the parsed instance of its template. */
  ghost predicate ReferenceMeans(w: World, f: Fields, stack: seq<string>, r: Parsed) {
    if !TextOrMissing(f, "id") || !TextOrMissing(f, "templateId") then r == Bad
    else
      var template := Text(f, "templateId");
      if template !in w.templates then r == Bad
      else if template in stack then r == Cycle(template)
      else if !ObjectOrMissing(f, "slots") || !ObjectOrMissing(f, "overrides") then r == Bad
      else exists result ::
        && Instance(w.templates[template], Text(f, "id"), Entries(f, "slots"), Entries(f, "overrides"), result)
        && r == match result case Some(o) => ParseView(w, Object(o), stack + [template]) case None => Bad
  }

  lemma PutRenames(template: Fields, id: string)
    ensures Renamed(template, id, Put(template, "id", String(id)))
  {
    forall k ensures Get(Put(template, "id", String(id)), k) == if k == "id" then Some(String(id)) else Get(template, k)
    {
      PutGets(template, "id", String(id), k);
    }
    PutGets(template, "id", String(id), "id");
  }

  lemma PreparedIsInstance(template: Fields, f: Fields)
    requires WellFormed(Object(f)) && TextOrMissing(f, "id")
    requires ObjectOrMissing(f, "slots") && ObjectOrMissing(f, "overrides")
    ensures Instance(template, Text(f, "id"), Entries(f, "slots"), Entries(f, "overrides"),
                     Prepared(template, Text(f, "id"), f))
  {
    hide SlotsMean, SlotsApplied, OverridesMean, OverridesApplied, Renamed, FindKey;
    var slots, overrides := Entries(f, "slots"), Entries(f, "overrides");
    var root := Put(template, "id", String(Text(f, "id")));
    PutRenames(template, Text(f, "id"));
    SlotsAreMeant(root, slots);
    if SlotsApplied(root, slots).Some? {
      OverridesAreMeant(SlotsApplied(root, slots).value, overrides);
    }
  }

  /** Parsing a reference gives what the reference means. */
  lemma ReferenceIsMeant(w: World, node: Json, stack: seq<string>)
    requires node.Object? && WellFormed(node)
    ensures ReferenceMeans(w, node.fields, stack, ParseRef(w, node, stack))
  {
    hide Instance, Prepared, Child, Left, ParseView, WellFormed;
    var f := node.fields;
    assert node == Object(f);
    StringFieldIs(f, "id");
    StringFieldIs(f, "templateId");
    if !(ObjectOrMissing(f, "slots") && ObjectOrMissing(f, "overrides")) {
      PreparedNeeds(f);
    }
    if TextOrMissing(f, "id") && ObjectOrMissing(f, "slots") && ObjectOrMissing(f, "overrides") {
      forall template | template in w.templates
        ensures Instance(w.templates[template], Text(f, "id"), Entries(f, "slots"), Entries(f, "overrides"),
                         Prepared(w.templates[template], Text(f, "id"), f))
      {
        PreparedIsInstance(w.templates[template], f);
      }
    }
  }

  lemma StringFieldIs(f: Fields, key: string)
    ensures StringField(f, key) == if TextOrMissing(f, key) then Some(Text(f, key)) else None
  {
    hide Child;
  }

  lemma PreparedNeeds(f: Fields)
    requires !ObjectOrMissing(f, "slots") || !ObjectOrMissing(f, "overrides")
    ensures forall template: Fields, id :: Prepared(template, id, f).None?
  {
    hide Child, SlotsApplied, OverridesApplied;
  }

  // ---- The expansion without a stack, cut off at a depth ----

  function UnrolledRef(w: World, node: Json, depth: nat): Parsed
    requires node.Object?
    decreases depth, node, 2, 0
  {
    var id, template := StringField(node.fields, "id"), StringField(node.fields, "templateId");
    if id.None? || template.None? || template.value !in w.templates || depth == 0 then Bad
    else
      var prepared := Prepared(w.templates[template.value], id.value, node.fields);
      if prepared.None? then Bad else UnrolledView(w, Object(prepared.value), depth - 1)
  }

  function UnrolledView(w: World, node: Json, depth: nat): Parsed
    requires node.Object?
    decreases depth, node, 1, 0
  {
    var id, kind, at := StringField(node.fields, "id"), StringField(node.fields, "type"),
        FindKey(node.fields, CHILDREN);
    if id.None? || kind.None? || !w.accepts(node.fields) then Bad
    else if at == |node.fields| then Parsed(View(id.value, kind.value, []))
    else if !node.fields[at].value.Array? then Bad
    else
      match UnrolledChildren(w, node.fields[at].value, 0, depth)
      case Views(views) => Parsed(View(id.value, kind.value, views))
      case _ => Bad
  }

  function UnrolledChildren(w: World, list: Json, i: nat, depth: nat): ParsedList
    requires list.Array? && i <= |list.items|
    decreases depth, list, 0, |list.items| - i
  {
    if i == |list.items| then Views([])
    else
      var child := list.items[i];
      var one := if !child.Object? then Bad else UnrolledChild(w, child, depth);
      if !one.Parsed? || one.view.kind == "screen" then ListBad
      else
        match UnrolledChildren(w, list, i + 1, depth)
        case Views(views) => Views([one.view] + views)
        case _ => ListBad
  }

  function UnrolledChild(w: World, child: Json, depth: nat): Parsed
    requires child.Object?
    decreases depth, child, 3, 0
  {
    match StringField(child.fields, "type")
    case None => Bad
    case Some(kind) =>
      if kind == "slot" then Bad
      else if kind == "templateRef" then UnrolledRef(w, child, depth)
      else UnrolledView(w, child, depth)
  }

  // ---- The stack only rejects ----

  lemma {:induction false} RefUnrolls(w: World, node: Json, stack: seq<string>, depth: nat)
    requires node.Object? && ParseRef(w, node, stack).Parsed? && Left(w, stack) <= depth
    ensures UnrolledRef(w, node, depth) == ParseRef(w, node, stack)
    decreases Left(w, stack), node, 2, 0
  {
    hide Prepared, Left, StringField, FindKey;
    var template := StringField(node.fields, "templateId").value;
    EnteringLeavesFewer(w, stack, template);
    var prepared := Prepared(w.templates[template], StringField(node.fields, "id").value, node.fields);
    ViewUnrolls(w, Object(prepared.value), stack + [template], depth - 1);
  }

  /** Whatever the parser accepts is what plain expansion gives, within as many levels as there are templates left. */
  lemma {:induction false} ViewUnrolls(w: World, node: Json, stack: seq<string>, depth: nat)
    requires node.Object? && ParseView(w, node, stack).Parsed? && Left(w, stack) <= depth
    ensures UnrolledView(w, node, depth) == ParseView(w, node, stack)
    decreases Left(w, stack), node, 1, 0
  {
    hide Left, StringField, FindKey, ParseChildren, UnrolledChildren;
    var at := FindKey(node.fields, CHILDREN);
    if at < |node.fields| {
      ChildrenUnroll(w, node.fields[at].value, 0, stack, depth);
    }
  }

  lemma {:induction false} ChildrenUnroll(w: World, list: Json, i: nat, stack: seq<string>, depth: nat)
    requires list.Array? && i <= |list.items| && ParseChildren(w, list, i, stack).Views? && Left(w, stack) <= depth
    ensures UnrolledChildren(w, list, i, depth) == ParseChildren(w, list, i, stack)
    decreases Left(w, stack), list, 0, |list.items| - i
  {
    hide Left, StringField, FindKey, ParseRef, ParseView, UnrolledRef, UnrolledView;
    if i < |list.items| {
      var child := list.items[i];
      var kind := StringField(child.fields, "type");
      if kind == Some("templateRef") {
        RefUnrolls(w, child, stack, depth);
      } else {
        ViewUnrolls(w, child, stack, depth);
      }
      ChildrenUnroll(w, list, i + 1, stack, depth);
    }
  }

  // ---- What exactly it rejects ----

  /** Plain expansion of the reference enters a template that is being expanded already. */
  predicate ReentersRef(w: World, node: Json, stack: seq<string>, depth: nat)
    requires node.Object?
    decreases depth, node, 2, 0
  {
    var id, template := StringField(node.fields, "id"), StringField(node.fields, "templateId");
    if id.None? || template.None? || template.value !in w.templates || depth == 0 then false
    else if template.value in stack then true
    else
      var prepared := Prepared(w.templates[template.value], id.value, node.fields);
      prepared.Some? && ReentersView(w, Object(prepared.value), stack + [template.value], depth - 1)
  }

  predicate ReentersView(w: World, node: Json, stack: seq<string>, depth: nat)
    requires node.Object?
    decreases depth, node, 1, 0
  {
    var at := FindKey(node.fields, CHILDREN);
    at < |node.fields| && node.fields[at].value.Array? && ReentersFrom(w, node.fields[at].value, 0, stack, depth)
  }

  predicate ReentersFrom(w: World, list: Json, i: nat, stack: seq<string>, depth: nat)
    requires list.Array? && i <= |list.items|
    decreases depth, list, 0, |list.items| - i
  {
    i < |list.items| &&
      ((list.items[i].Object? && ReentersChild(w, list.items[i], stack, depth)) ||
          ReentersFrom(w, list, i + 1, stack, depth))
  }

  predicate ReentersChild(w: World, child: Json, stack: seq<string>, depth: nat)
    requires child.Object?
    decreases depth, child, 3, 0
  {
    if StringField(child.fields, "type") == Some("templateRef") then ReentersRef(w, child, stack, depth)
    else ReentersView(w, child, stack, depth)
  }

  lemma {:induction false} RefExactly(w: World, node: Json, stack: seq<string>, depth: nat)
    requires node.Object? && Left(w, stack) < depth
    ensures ParseRef(w, node, stack).Parsed? <==>
            UnrolledRef(w, node, depth).Parsed? && !ReentersRef(w, node, stack, depth)
    decreases Left(w, stack), node, 2, 0
  {
    hide Prepared, Left, StringField, FindKey, ReentersView;
    var id, template := StringField(node.fields, "id"), StringField(node.fields, "templateId");
    if id.Some? && template.Some? && template.value in w.templates && template.value !in stack {
      EnteringLeavesFewer(w, stack, template.value);
      var prepared := Prepared(w.templates[template.value], id.value, node.fields);
      if prepared.Some? {
        ViewExactly(w, Object(prepared.value), stack + [template.value], depth - 1);
      }
    }
  }

  /**
   * A node is accepted exactly when plain expansion accepts it and never enters a template from within itself: template
   * maps with cycles are refused where the cycle is reached, and so is every other nesting of a template in itself.
   */
  lemma {:induction false} ViewExactly(w: World, node: Json, stack: seq<string>, depth: nat)
    requires node.Object? && Left(w, stack) < depth
    ensures ParseView(w, node, stack).Parsed? <==>
            UnrolledView(w, node, depth).Parsed? && !ReentersView(w, node, stack, depth)
    decreases Left(w, stack), node, 1, 0
  {
    hide Left, StringField, FindKey, ParseChildren, UnrolledChildren, ReentersFrom;
    var at := FindKey(node.fields, CHILDREN);
    if at < |node.fields| && node.fields[at].value.Array? {
      ChildrenExactly(w, node.fields[at].value, 0, stack, depth);
      if !(StringField(node.fields, "id").Some? && StringField(node.fields, "type").Some? && w.accepts(node.fields)) {
        assert !ParseView(w, node, stack).Parsed? && !UnrolledView(w, node, depth).Parsed?;
      }
    }
  }

  lemma {:induction false} ChildExactly(w: World, child: Json, stack: seq<string>, depth: nat)
    requires child.Object? && Left(w, stack) < depth
    ensures ParseChild(w, child, stack).Parsed? <==>
            UnrolledChild(w, child, depth).Parsed? && !ReentersChild(w, child, stack, depth)
    ensures ParseChild(w, child, stack).Parsed? ==> UnrolledChild(w, child, depth) == ParseChild(w, child, stack)
    decreases Left(w, stack), child, 3, 0
  {
    hide Left, StringField, FindKey, ParseRef, ParseView, UnrolledRef, UnrolledView, ReentersRef, ReentersView;
    if StringField(child.fields, "type") == Some("templateRef") {
      RefExactly(w, child, stack, depth);
      if ParseRef(w, child, stack).Parsed? {
        RefUnrolls(w, child, stack, depth);
      }
    } else {
      ViewExactly(w, child, stack, depth);
      if ParseView(w, child, stack).Parsed? {
        ViewUnrolls(w, child, stack, depth);
      }
    }
  }

  lemma {:induction false} ChildrenExactly(w: World, list: Json, i: nat, stack: seq<string>, depth: nat)
    requires list.Array? && i <= |list.items| && Left(w, stack) < depth
    ensures ParseChildren(w, list, i, stack).Views? <==>
            UnrolledChildren(w, list, i, depth).Views? && !ReentersFrom(w, list, i, stack, depth)
    decreases Left(w, stack), list, 0, |list.items| - i
  {
    hide Left, ParseChild, UnrolledChild, ReentersChild;
    if i < |list.items| {
      var child := list.items[i];
      if child.Object? {
        ChildExactly(w, child, stack, depth);
      }
      ChildrenExactly(w, list, i + 1, stack, depth);
    }
  }

  // ---- A finite nesting that is refused all the same ----

  lemma Lookup(fields: Fields, i: nat)
    requires UniqueKeys(fields) && i < |fields|
    ensures FindKey(fields, fields[i].key) == i && Child(fields, fields[i].key) == Some(fields[i].value)
    ensures Get(fields, fields[i].key) == Some(fields[i].value)
  {
    IndexIs(fields, i);
  }

  function Reference(id: string, slots: Fields): Json {
    Object([Entry("type", String("templateRef")), Entry("id", String(id)), Entry("templateId", String("card")),
            Entry("slots", Object(slots)), Entry("overrides", Object([]))])
  }

  function Card(id: string, children: seq<Json>): Fields {
    [Entry("id", String(id)), Entry("type", String("container")), Entry("children", Array(children))]
  }

  function BodySlot(): Json {
    Object([Entry("type", String("slot")), Entry("id", String("body")), Entry("children", Array([]))])
  }

  lemma ReferenceFields(id: string, slots: Fields)
    ensures var f := Reference(id, slots).fields;
            && StringField(f, "type") == Some("templateRef") && StringField(f, "id") == Some(id)
            && StringField(f, "templateId") == Some("card")
            && Optional(f, "slots") == Some(slots) && Optional(f, "overrides") == Some([])
  {
    var f := Reference(id, slots).fields;
    Lookup(f, 0);
    Lookup(f, 1);
    Lookup(f, 2);
    Lookup(f, 3);
    Lookup(f, 4);
  }

  lemma CardFields(id: string, children: seq<Json>)
    ensures var f := Card(id, children);
            && StringField(f, "id") == Some(id) && StringField(f, "type") == Some("container")
            && FindKey(f, CHILDREN) == 2 && Get(f, CHILDREN) == Some(Array(children)) && Has(f, CHILDREN)
            && IndexOf(f, "id") == 0 && IndexOf(f, CHILDREN) == 2
  {
    var f := Card(id, children);
    Lookup(f, 0);
    Lookup(f, 1);
    Lookup(f, 2);
  }

  lemma CardPrepared(id: string, body: seq<Json>, slots: Fields)
    requires slots == [Entry("body", Array(body))] || (slots == [] && body == [])
    ensures Prepared(Card("", [BodySlot()]), id, Reference(id, slots).fields) == Some(Card(id, body))
  {
    hide StringField, FindKey;
    ReferenceFields(id, slots);
    CardFields("", [BodySlot()]);
    var root := Put(Card("", [BodySlot()]), "id", String(id));
    assert root == Card(id, [BodySlot()]);
    CardFields(id, [BodySlot()]);
    BodyFilled(body, slots);
    assert Put(root, CHILDREN, Array(body)) == Card(id, body);
  }

  lemma BodyFilled(body: seq<Json>, slots: Fields)
    requires slots == [Entry("body", Array(body))] || (slots == [] && body == [])
    ensures var list := Array([BodySlot()]);
            && Good(list, 0, slots, {}) && AllDeclared(slots, SlotIds(list, 0)) && Filled(list, 0, slots) == body
  {
    var list, f := Array([BodySlot()]), BodySlot().fields;
    Lookup(f, 0);
    Lookup(f, 1);
    Lookup(f, 2);
    if slots != [] {
      Lookup(slots, 0);
    }
    assert SlotItems(BodySlot(), slots) == body;
    assert Filled(list, 1, slots) == [] && SlotIds(list, 1) == [];
    assert SlotIds(list, 0) == ["body"];
    assert ["body"][0] == "body";
  }

  /** A card put into the body slot of another card expands in two levels, yet the parser calls it a cycle. */
  lemma CardInCard()
    ensures var w := World(map["card" := Card("", [BodySlot()])], (f: Fields) => true);
            var inner := Reference("b", []);
            var outer := Reference("a", [Entry("body", Array([inner]))]);
            && UnrolledRef(w, outer, 2) == Parsed(View("a", "container", [View("b", "container", [])]))
            && ParseRef(w, outer, []) == Cycle("card")
  {
    hide StringField, FindKey, Prepared;
    var w := World(map["card" := Card("", [BodySlot()])], (f: Fields) => true);
    var inner := Reference("b", []);
    var outer := Reference("a", [Entry("body", Array([inner]))]);
    ReferenceFields("b", []);
    ReferenceFields("a", [Entry("body", Array([inner]))]);
    CardPrepared("a", [inner], [Entry("body", Array([inner]))]);
    CardPrepared("b", [], []);
    CardFields("a", [inner]);
    CardFields("b", []);
    assert UnrolledChildren(w, Array([]), 0, 0) == Views([]);
    assert UnrolledView(w, Object(Card("b", [])), 0) == Parsed(View("b", "container", []));
    assert UnrolledRef(w, inner, 1) == Parsed(View("b", "container", []));
    assert UnrolledChildren(w, Array([inner]), 1, 1) == Views([]);
    assert UnrolledChildren(w, Array([inner]), 0, 1) == Views([View("b", "container", [])]);
    assert [] + ["card"] == ["card"];
    assert ParseRef(w, inner, ["card"]) == Cycle("card");
    assert ParseChildren(w, Array([inner]), 0, ["card"]) == ListCycle("card");
    assert ParseView(w, Object(Card("a", [inner])), ["card"]) == Cycle("card");
  }

  // ---- The recursive parser ----

  predicate NoRepeats(stack: seq<string>) {
    forall i, j :: 0 <= i < j < |stack| ==> stack[i] != stack[j]
  }

  lemma {:induction false} StackedSize(stack: seq<string>)
    requires NoRepeats(stack)
    ensures |Stacked(stack)| == |stack|
    decreases |stack|
  {
    if stack != [] {
      var front, last := stack[..|stack| - 1], stack[|stack| - 1];
      StackedSize(front);
      assert last !in Stacked(front);
      assert Stacked(stack) == Stacked(front) + {last};
    }
  }

  lemma SubsetSize(a: set<string>, b: set<string>)
    requires a <= b
    ensures |a| <= |b|
  {
    assert b == a + (b - a);
  }

  class Parser {
    const world: World
    var templateStack: seq<string>

    constructor (world: World)
      ensures this.world == world && templateStack == [] && Valid()
    {
      this.world, templateStack := world, [];
    }

    /** The templates being expanded are known ones, each entered once. */
    ghost predicate Valid()
      reads this
    {
      NoRepeats(templateStack) && forall i :: 0 <= i < |templateStack| ==> templateStack[i] in world.templates
    }

    /** Nesting is bounded by the number of templates. */
    lemma NestingBounded()
      requires Valid()
      ensures |templateStack| <= |world.templates|
    {
      StackedSize(templateStack);
      SubsetSize(Stacked(templateStack), world.templates.Keys);
      assert |world.templates.Keys| == |world.templates|;
    }

    method PrepareTemplate(template: Fields, id: string, object_: Fields) returns (r: Option<Fields>)
      ensures r == Prepared(template, id, object_)
    {
      hide SlotsApplied, OverridesApplied, Child;
      var slots, overrides := Optional(object_, "slots"), Optional(object_, "overrides");
      if slots.None? {
        return None;
      }
      var filled := ApplyTemplateSlots(Put(template, "id", String(id)), slots.value);
      if filled.None? || overrides.None? {
        return None;
      }
      r := ApplyTemplateOverrides(filled.value, overrides.value);
    }

    method ParseTemplateRef(node: Json) returns (r: Parsed)
      requires Valid() && node.Object?
      modifies this`templateStack
      ensures Valid() && templateStack == old(templateStack)
      ensures r == ParseRef(world, node, templateStack)
      ensures WellFormed(node) ==> ReferenceMeans(world, node.fields, templateStack, r)
      decreases Left(world, templateStack), node, 2, 0
    {
      hide Left, Prepared, StringField, ReferenceMeans, WellFormed;
      if WellFormed(node) {
        ReferenceIsMeant(world, node, templateStack);
      }
      var id, template := StringField(node.fields, "id"), StringField(node.fields, "templateId");
      if id.None? || template.None? || template.value !in world.templates {
        return Bad;
      }
      if template.value in templateStack {
        return Cycle(template.value);
      }
      var prepared := PrepareTemplate(world.templates[template.value], id.value, node.fields);
      if prepared.None? {
        return Bad;
      }
      EnteringLeavesFewer(world, templateStack, template.value);
      ghost var before := templateStack;
      templateStack := templateStack + [template.value];
      r := ParseViewNode(Object(prepared.value));
      templateStack := templateStack[..|templateStack| - 1];
      assert templateStack == before;
    }

    method ParseViewNode(node: Json) returns (r: Parsed)
      requires Valid() && node.Object?
      modifies this`templateStack
      ensures Valid() && templateStack == old(templateStack)
      ensures r == ParseView(world, node, templateStack)
      decreases Left(world, templateStack), node, 1, 0
    {
      hide Left, StringField, FindKey;
      var id, kind := StringField(node.fields, "id"), StringField(node.fields, "type");
      if id.None? || kind.None? || !world.accepts(node.fields) {
        return Bad;
      }
      var at := FindKey(node.fields, CHILDREN);
      if at == |node.fields| {
        return Parsed(View(id.value, kind.value, []));
      }
      if !node.fields[at].value.Array? {
        return Bad;
      }
      var children := ParseChildNodes(node.fields[at].value);
      match children
      case Views(views) => r := Parsed(View(id.value, kind.value, views));
      case ListCycle(t) => r := Cycle(t);
      case ListBad => r := Bad;
    }

    method ParseChildNodes(list: Json) returns (r: ParsedList)
      requires Valid() && list.Array?
      modifies this`templateStack
      ensures Valid() && templateStack == old(templateStack)
      ensures r == ParseChildren(world, list, 0, templateStack)
      decreases Left(world, templateStack), list, 0, 0
    {
      hide Left, StringField, ParseChild;
      var views: seq<View> := [];
      for i := 0 to |list.items|
        invariant Valid() && templateStack == old(templateStack)
        invariant ParseChildren(world, list, 0, templateStack)
                  == match ParseChildren(world, list, i, templateStack)
                     case Views(rest) => Views(views + rest)
                     case failed => failed
      {
        var child := list.items[i];
        if !child.Object? {
          return ListBad;
        }
        var one := ParseChildNode(child);
        match one {
          case Cycle(t) => return ListCycle(t);
          case Bad => return ListBad;
          case Parsed(view) =>
            if view.kind == "screen" {
              return ListBad;
            }
            assert forall rest: seq<View> :: views + ([view] + rest) == views + [view] + rest;
            views := views + [view];
        }
      }
      r := Views(views);
    }

    method ParseChildNode(child: Json) returns (r: Parsed)
      requires Valid() && child.Object?
      modifies this`templateStack
      ensures Valid() && templateStack == old(templateStack)
      ensures r == ParseChild(world, child, templateStack)
      decreases Left(world, templateStack), child, 3, 0
    {
      hide Left, StringField, ParseRef, ParseView;
      var kind := StringField(child.fields, "type");
      if kind.None? || kind.value == "slot" {
        return Bad;
      }
      if kind.value == "templateRef" {
        r := ParseTemplateRef(child);
      } else {
        r := ParseViewNode(child);
      }
    }
  }
}
