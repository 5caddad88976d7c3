/** What a template reference stands for, in terms of lookups in its template, its slots and its overrides. */
module TemplateMeaning {
  import opened Json
  import opened TemplateSlots

  /** The object at an address: positions among the children, from the root down. */
  function NodeAt(root: Fields, address: seq<nat>): Option<Fields>
    decreases |address|
  {
    if address == [] then Some(root)
    else
      match Get(root, "children")
      case Some(Array(items)) =>
        if address[0] < |items| && items[address[0]].Object? then NodeAt(items[address[0]].fields, address[1..])
        else None
      case _ => None
  }

  predicate Named(child: Json, id: string) {
    child.Object? && StringField(child.fields, "id") == Some(id)
  }

  /** The ids lead to this address: each to the first child that has it. */
  predicate Leads(root: Fields, ids: seq<string>, address: seq<nat>)
    decreases |ids|
  {
    && |address| == |ids|
    && (ids != [] ==>
          match Get(root, "children")
          case Some(Array(items)) =>
            && address[0] < |items| && Named(items[address[0]], ids[0])
            && (forall j :: 0 <= j < address[0] ==> !Named(items[j], ids[0]))
            && Leads(items[address[0]].fields, ids[1..], address[1..])
          case _ => false)
  }

  /** The entries stand in the same order; new ones only come after them. */
  predicate KeepsOrder(before: Fields, after: Fields) {
    |before| <= |after| && forall i :: 0 <= i < |before| ==> after[i].key == before[i].key
  }

  /** Nothing differs but inside child objects, which are as many and in the same places. */
  ghost predicate SameButBelow(before: Fields, after: Fields) {
    && |after| == |before| && KeepsOrder(before, after)
    && (forall k :: k != "children" ==> Get(after, k) == Get(before, k))
    && match Get(before, "children")
       case Some(Array(items)) =>
         && Get(after, "children").Some? && Get(after, "children").value.Array?
         && var now := Get(after, "children").value.items;
            && |now| == |items|
            && forall i :: 0 <= i < |items| ==> if items[i].Object? then now[i].Object? else now[i] == items[i]
       case other => Get(after, "children") == other
  }

  /** At the address the fields are merged in; every other node of the tree is as it was. */
  ghost predicate WrittenAt(before: Fields, address: seq<nat>, fields: Fields, after: Fields) {
    && (forall a :: NodeAt(after, a).Some? <==> NodeAt(before, a).Some?)
    && (forall a :: a != address && NodeAt(before, a).Some? ==>
          SameButBelow(NodeAt(before, a).value, NodeAt(after, a).value))
    && NodeAt(before, address).Some?
    && KeepsOrder(NodeAt(before, address).value, NodeAt(after, address).value)
    && (forall path :: MergedAlong(Object(NodeAt(before, address).value), Object(fields),
                                   Object(NodeAt(after, address).value), path))
  }

  /** An override's path: relative, "" and "." mean the root, otherwise ids with slashes between them. */
  ghost predicate Targets(root: Fields, key: string, address: seq<nat>) {
    if key == "" || key == "." then address == []
    else key[0] != '/' && exists ids :: IdsOf(key, ids) && Leads(root, ids, address)
  }

  /** The ids are the pieces of the path between its slashes; slashes at the ends and double ones are skipped. */
  ghost predicate IdsOf(path: string, ids: seq<string>)
    decreases |path|
  {
    if path == "" then ids == []
    else if path[0] == '/' then IdsOf(path[1..], ids)
    else
      && ids != []
      && exists n: nat :: IsPiece(path, n) && ids[0] == path[..n] && IdsOf(path[n..], ids[1..])
  }

  /** The first piece of the path ends at position `n`. */
  predicate IsPiece(path: string, n: nat) {
    0 < n <= |path| && (forall k :: 0 <= k < n ==> path[k] != '/') && (n < |path| ==> path[n] == '/')
  }

  /** Fields that no override may write. */
  predicate MayWrite(key: string) {
    && key != "id" && key != "type" && key != "children" && key != "node"
    && key != "templateId" && key != "template_id" && key != "overrides" && key != "slots"
  }

  /** An override that is refused: not an object, no target, or a field that may not be written. */
  ghost predicate RefusedBy(root: Fields, e: Entry) {
    || !e.value.Object?
    || (forall address :: !Targets(root, e.key, address))
    || (exists i :: 0 <= i < |e.value.fields| && !MayWrite(e.value.fields[i].key))
  }

  ghost predicate Done(before: Fields, e: Entry, after: Fields) {
    && e.value.Object?
    && (forall i :: 0 <= i < |e.value.fields| ==> MayWrite(e.value.fields[i].key))
    && exists address :: Targets(before, e.key, address) && WrittenAt(before, address, e.value.fields, after)
  }

  /** The overrides one after the other. */
  ghost predicate DoneInTurn(overrides: Fields, steps: seq<Fields>) {
    0 < |steps| <= |overrides| + 1 && forall i :: 0 <= i < |steps| - 1 ==> Done(steps[i], overrides[i], steps[i + 1])
  }

  /** What overriding must give: all overrides done in turn, or nothing when the turn of a refused one comes. */
  ghost predicate OverridesMean(root: Fields, overrides: Fields, result: Option<Fields>) {
    exists steps ::
      && DoneInTurn(overrides, steps) && steps[0] == root
      && match result
         case Some(after) => |steps| == |overrides| + 1 && steps[|overrides|] == after
         case None => |steps| <= |overrides| && RefusedBy(steps[|steps| - 1], overrides[|steps| - 1])
  }

  // ---- One override ----

  lemma {:induction false} FirstNamed(items: seq<Json>, id: string)
    ensures var i := ChildNamed(items, id);
            && (i < |items| ==> Named(items[i], id)) && forall j :: 0 <= j < i ==> !Named(items[j], id)
    decreases |items|
  {
    hide StringField;
    if items != [] && !Named(items[0], id) {
      FirstNamed(items[1..], id);
      var i := ChildNamed(items, id);
      forall j | 0 <= j < i ensures !Named(items[j], id) {
        assert j > 0 ==> items[j] == items[1..][j - 1];
      }
      assert i < |items| ==> items[i] == items[1..][i - 1];
    }
  }

  lemma {:induction false} TargetHasAddress(root: Fields, ids: seq<string>) returns (address: seq<nat>)
    requires Target(root, ids).Some?
    ensures Leads(root, ids, address) && NodeAt(root, address) == Target(root, ids)
    decreases |ids|
  {
    hide StringField;
    address := [];
    if ids != [] {
      var items := Get(root, "children").value.items;
      var i := ChildNamed(items, ids[0]);
      FirstNamed(items, ids[0]);
      var rest := TargetHasAddress(items[i].fields, ids[1..]);
      address := [i] + rest;
      assert address[1..] == rest;
    }
  }

  lemma {:induction false} AddressHasTarget(root: Fields, ids: seq<string>, address: seq<nat>)
    requires Leads(root, ids, address)
    ensures Target(root, ids).Some? && NodeAt(root, address) == Target(root, ids)
    decreases |ids|
  {
    hide StringField;
    if ids != [] {
      var items := Get(root, "children").value.items;
      FirstNamed(items, ids[0]);
      assert ChildNamed(items, ids[0]) == address[0];
      AddressHasTarget(items[address[0]].fields, ids[1..], address[1..]);
    }
  }

  lemma {:induction false} EntriesMerge(target: Fields, entries: Fields, i: nat)
    requires i <= |entries| && forall j :: i <= j < |entries| ==> entries[j].key !in FORBIDDEN
    ensures PutEntries(target, entries[i..]) == Some(MergedFields(target, entries, i))
    decreases |entries| - i
  {
    hide Put;
    if i < |entries| {
      var e := entries[i];
      assert entries[i..][0] == e && entries[i..][1..] == entries[i + 1..];
      assert Written(target, e) == Combined(Get(target, e.key), e.value);
      EntriesMerge(PutEntry(target, e), entries, i + 1);
    }
  }

  lemma {:induction false} MergeKeepsOrder(target: Fields, entries: Fields, i: nat)
    requires i <= |entries|
    ensures KeepsOrder(target, MergedFields(target, entries, i))
    decreases |entries| - i
  {
    hide Merged;
    if i < |entries| {
      var e := entries[i];
      MergeKeepsOrder(Put(target, e.key, Combined(Get(target, e.key), e.value)), entries, i + 1);
    }
  }

  lemma EntriesMean(target: Fields, entries: Fields)
    requires WellFormed(Object(entries)) && PutEntries(target, entries).Some?
    ensures var after := PutEntries(target, entries).value;
            && KeepsOrder(target, after) && Get(after, "children") == Get(target, "children")
            && forall path :: MergedAlong(Object(target), Object(entries), Object(after), path)
  {
    hide PutEntries, Merged, MergedFields, MergedAlong, WellFormed, Get;
    var after := PutEntries(target, entries).value;
    EntriesAllowed(target, entries);
    assert entries[0..] == entries;
    EntriesMerge(target, entries, 0);
    MergeKeepsOrder(target, entries, 0);
    MergedObjects(target, entries);
    forall path ensures MergedAlong(Object(target), Object(entries), Object(after), path) {
      SourceWins(Object(target), Object(entries), path);
    }
    NoChildrenWritten(target, entries);
  }

  lemma NoChildrenWritten(target: Fields, entries: Fields)
    requires WellFormed(Object(entries)) && forall i :: 0 <= i < |entries| ==> entries[i].key !in FORBIDDEN
    ensures Get(MergedFields(target, entries, 0), "children") == Get(target, "children")
  {
    hide Merged, MergedFields;
    MergedGets(target, entries, 0, "children");
  }

  lemma SameNode(fields: Fields)
    ensures SameButBelow(fields, fields)
  {
  }

  lemma ChildReplaced(root: Fields, items: seq<Json>, i: nat, node: Fields)
    requires Get(root, "children") == Some(Array(items)) && i < |items| && items[i].Object?
    ensures SameButBelow(root, Put(root, "children", Array(items[i := Object(node)])))
    ensures Get(Put(root, "children", Array(items[i := Object(node)])), "children")
            == Some(Array(items[i := Object(node)]))
  {
    var after := Put(root, "children", Array(items[i := Object(node)]));
    forall k ensures k != "children" ==> Get(after, k) == Get(root, k) {
      PutGets(root, "children", Array(items[i := Object(node)]), k);
    }
    PutGets(root, "children", Array(items[i := Object(node)]), "children");
  }

  lemma {:induction false} OverrideMeans(root: Fields, ids: seq<string>, entries: Fields) returns (address: seq<nat>)
    requires WellFormed(Object(entries)) && Overridden(root, ids, entries).Some?
    ensures Leads(root, ids, address) && WrittenAt(root, address, entries, Overridden(root, ids, entries).value)
    decreases |ids|
  {
    hide PutEntries, MergedAlong, SameButBelow, StringField, WellFormed, Put;
    var after := Overridden(root, ids, entries).value;
    if ids == [] {
      address := [];
      EntriesMean(root, entries);
      forall a | NodeAt(root, a).Some? && a != [] ensures SameButBelow(NodeAt(root, a).value, NodeAt(after, a).value) {
        SameNode(NodeAt(root, a).value);
      }
    } else {
      var items := Get(root, "children").value.items;
      var i := ChildNamed(items, ids[0]);
      FirstNamed(items, ids[0]);
      var node := Overridden(items[i].fields, ids[1..], entries).value;
      var rest := OverrideMeans(items[i].fields, ids[1..], entries);
      address := [i] + rest;
      assert address[1..] == rest;
      ChildReplaced(root, items, i, node);
      AboveWritten(root, items, i, rest, entries, node, after);
    }
  }

  lemma AboveWritten(root: Fields, items: seq<Json>, i: nat, rest: seq<nat>, entries: Fields, node: Fields,
                     after: Fields)
    requires Get(root, "children") == Some(Array(items)) && i < |items| && items[i].Object?
    requires SameButBelow(root, after) && Get(after, "children") == Some(Array(items[i := Object(node)]))
    requires WrittenAt(items[i].fields, rest, entries, node)
    ensures WrittenAt(root, [i] + rest, entries, after)
  {
    hide MergedAlong, SameButBelow, KeepsOrder, Get;
    var address := [i] + rest;
    assert address[1..] == rest;
    forall a: seq<nat>
      ensures NodeAt(after, a).Some? <==> NodeAt(root, a).Some?
      ensures a != address && NodeAt(root, a).Some? ==> SameButBelow(NodeAt(root, a).value, NodeAt(after, a).value)
    {
      if a != [] {
        if a[0] == i {
          assert a == [i] + a[1..];
        } else if NodeAt(root, a).Some? {
          SameNode(NodeAt(root, a).value);
        }
      }
    }
  }

  // ---- A path and its ids ----

  lemma {:induction false} PieceEnds(path: string, current: string) returns (n: nat)
    requires current != ""
    ensures n <= |path| && (forall k :: 0 <= k < n ==> path[k] != '/') && (n < |path| ==> path[n] == '/')
    ensures PathParts(path, current) == [current + path[..n]] + PathParts(path[n..], "")
    decreases |path|
  {
    if path == "" || path[0] == '/' {
      n := 0;
      assert current + path[..0] == current && path[0..] == path;
    } else {
      var rest := PieceEnds(path[1..], current + [path[0]]);
      n := rest + 1;
      assert current + [path[0]] + path[1..][..rest] == current + path[..n];
      assert path[1..][rest..] == path[n..];
      assert n < |path| ==> path[n] == path[1..][rest];
      assert forall k :: 0 < k < n ==> path[k] == path[1..][k - 1];
    }
  }

  lemma {:induction false} PathHasIds(path: string, ids: seq<string>)
    ensures IdsOf(path, ids) <==> ids == PathParts(path, "")
    decreases |path|
  {
    if path != "" && path[0] == '/' {
      PathHasIds(path[1..], ids);
      assert [] + PathParts(path[1..], "") == PathParts(path[1..], "");
    } else if path != "" {
      var rest := PieceEnds(path[1..], [path[0]]);
      var n := rest + 1;
      assert [path[0]] + path[1..][..rest] == path[..n] && path[1..][rest..] == path[n..];
      assert forall k :: 0 < k < n ==> path[k] == path[1..][k - 1];
      assert "" + [path[0]] == [path[0]];
      assert PathParts(path, "") == [path[..n]] + PathParts(path[n..], "");
      assert IsPiece(path, n);
      forall m: nat | IsPiece(path, m) ensures m == n {
      }
      if ids != [] {
        PathHasIds(path[n..], ids[1..]);
        assert ids == [ids[0]] + ids[1..];
      }
    }
  }

  lemma TargetsAre(root: Fields, key: string, address: seq<nat>)
    requires key == "" || key == "." || key[0] != '/'
    ensures Targets(root, key, address) <==> Leads(root, OverrideParts(key), address)
  {
    hide StringField;
    if key == "" {
      PathHasIds(key, []);
    }
    forall ids ensures IdsOf(key, ids) <==> ids == PathParts(key, "") {
      PathHasIds(key, ids);
    }
  }

  // ---- Overrides ----

  lemma OneMeans(root: Fields, e: Entry)
    requires WellFormed(e.value)
    ensures match OneApplied(root, e)
            case Some(after) => Done(root, e, after)
            case None => RefusedBy(root, e)
  {
    hide PathParts, Leads, Overridden, Targets, WrittenAt, WellFormed, Target;
    if OneApplied(root, e).Some? {
      var address := OverrideMeans(root, OverrideParts(e.key), e.value.fields);
      TargetsAre(root, e.key, address);
      OverrideReachesTarget(root, OverrideParts(e.key), e.value.fields);
    } else if e.value.Object? {
      if e.key != "" && e.key != "." && e.key[0] == '/' {
        AbsoluteTargetsNothing(root, e.key);
      } else {
        OverrideReachesTarget(root, OverrideParts(e.key), e.value.fields);
        forall address ensures Target(root, OverrideParts(e.key)).None? ==> !Targets(root, e.key, address) {
          TargetsAre(root, e.key, address);
          if Leads(root, OverrideParts(e.key), address) {
            AddressHasTarget(root, OverrideParts(e.key), address);
          }
        }
      }
    }
  }

  lemma AbsoluteTargetsNothing(root: Fields, key: string)
    requires key != "" && key != "." && key[0] == '/'
    ensures forall address :: !Targets(root, key, address)
  {
  }

  /** The overrides of a reference are done one after the other, up to the first that is refused. */
  lemma {:induction false} OverridesAreMeant(root: Fields, overrides: Fields)
    requires WellFormed(Object(overrides))
    ensures OverridesMean(root, overrides, OverridesApplied(root, overrides))
  {
    var steps := TakenInTurn(root, overrides);
  }

  lemma {:induction false} TakenInTurn(root: Fields, overrides: Fields) returns (steps: seq<Fields>)
    requires forall i :: 0 <= i < |overrides| ==> WellFormed(overrides[i].value)
    ensures DoneInTurn(overrides, steps) && steps[0] == root
    ensures match OverridesApplied(root, overrides)
            case Some(after) => |steps| == |overrides| + 1 && steps[|overrides|] == after
            case None => |steps| <= |overrides| && RefusedBy(steps[|steps| - 1], overrides[|steps| - 1])
    decreases |overrides|
  {
    hide Done, RefusedBy, OneApplied, WellFormed;
    steps := [root];
    if overrides != [] {
      OneMeans(root, overrides[0]);
      var one := OneApplied(root, overrides[0]);
      if one.Some? {
        assert forall i :: 0 <= i < |overrides[1..]| ==> overrides[1..][i] == overrides[i + 1];
        var rest := TakenInTurn(one.value, overrides[1..]);
        steps := [root] + rest;
        assert forall i :: 0 <= i < |rest| ==> steps[i + 1] == rest[i];
        forall i | 0 <= i < |steps| - 1 ensures Done(steps[i], overrides[i], steps[i + 1]) {
          if i > 0 {
            assert Done(rest[i - 1], overrides[1..][i - 1], rest[i]);
          }
        }
      }
    }
  }

  // ---- What the overrides leave in the end ----

  /** The override says nothing about the path, and replaces nothing on the way to it. */
  predicate Silent(fields: Fields, path: seq<string>) {
    At(Object(fields), path).None? && Open(Object(fields), path)
  }

  /** The override in turn `i` does not touch this path of the node at the address. */
  ghost predicate Spares(before: Fields, e: Entry, address: seq<nat>, path: seq<string>) {
    e.value.Object? && (Targets(before, e.key, address) ==> Silent(e.value.fields, path))
  }

  lemma StepKeeps(before: Fields, e: Entry, after: Fields, address: seq<nat>, path: seq<string>)
    requires Done(before, e, after) && NodeAt(before, address).Some? && path != [] && path[0] != "children"
    requires Spares(before, e, address, path)
    ensures NodeAt(after, address).Some?
    ensures At(Object(NodeAt(after, address).value), path) == At(Object(NodeAt(before, address).value), path)
  {
    hide NodeAt, Targets;
    var written :| Targets(before, e.key, written) && WrittenAt(before, written, e.value.fields, after);
    var was, now := NodeAt(before, address).value, NodeAt(after, address).value;
    if written == address {
      assert MergedAlong(Object(was), Object(e.value.fields), Object(now), path);
    } else {
      AtStep(was, path);
      AtStep(now, path);
    }
  }

  /** What no override touches is in the end as it was in the beginning. */
  lemma {:induction false} UntouchedStays(overrides: Fields, steps: seq<Fields>, i: nat, address: seq<nat>,
                                          path: seq<string>)
    requires DoneInTurn(overrides, steps) && i < |steps|
    requires NodeAt(steps[i], address).Some? && path != [] && path[0] != "children"
    requires forall j :: i <= j < |steps| - 1 ==> Spares(steps[j], overrides[j], address, path)
    ensures NodeAt(steps[|steps| - 1], address).Some?
    ensures At(Object(NodeAt(steps[|steps| - 1], address).value), path)
         == At(Object(NodeAt(steps[i], address).value), path)
    decreases |steps| - i
  {
    hide NodeAt, Done, Spares, At;
    if i < |steps| - 1 {
      StepKeeps(steps[i], overrides[i], steps[i + 1], address, path);
      UntouchedStays(overrides, steps, i + 1, address, path);
    }
  }

  lemma {:induction false} OneAddress(root: Fields, ids: seq<string>, a: seq<nat>, b: seq<nat>)
    requires Leads(root, ids, a) && Leads(root, ids, b)
    ensures a == b
    decreases |ids|
  {
    hide StringField;
    if ids != [] {
      var items := Get(root, "children").value.items;
      assert a[0] == b[0];
      OneAddress(items[a[0]].fields, ids[1..], a[1..], b[1..]);
      assert a == [a[0]] + a[1..] && b == [b[0]] + b[1..];
    }
  }

  /** What the last override to touch a path says there is what the parser finds. */
  lemma LastOverrideShows(overrides: Fields, steps: seq<Fields>, i: nat, address: seq<nat>, path: seq<string>)
    requires DoneInTurn(overrides, steps) && i < |steps| - 1 && Targets(steps[i], overrides[i].key, address)
    requires overrides[i].value.Object? && Scalar(At(overrides[i].value, path)) && path != []
    requires forall j :: i < j < |steps| - 1 ==> Spares(steps[j], overrides[j], address, path)
    ensures NodeAt(steps[|steps| - 1], address).Some?
    ensures At(Object(NodeAt(steps[|steps| - 1], address).value), path) == At(overrides[i].value, path)
  {
    hide NodeAt, Leads, Spares, PathParts;
    var e := overrides[i];
    assert Done(steps[i], e, steps[i + 1]);
    var written :| Targets(steps[i], e.key, written) && WrittenAt(steps[i], written, e.value.fields, steps[i + 1]);
    TargetsAre(steps[i], e.key, address);
    TargetsAre(steps[i], e.key, written);
    OneAddress(steps[i], OverrideParts(e.key), address, written);
    assert e.value == Object(e.value.fields);
    assert MergedAlong(Object(NodeAt(steps[i], address).value), e.value,
                       Object(NodeAt(steps[i + 1], address).value), path);
    AtStep(e.value.fields, path);
    UntouchedStays(overrides, steps, i + 1, address, path);
  }

  // ---- What filling the slots means ----

  /** The list stands where the template had the other one: each slot replaced, each node kept with its own list. */
  ghost predicate StandsFor(list: Json, items: seq<Json>, slots: Fields)
    requires list.Array?
    decreases list, 0
  {
    exists parts :: items == Joined(parts) && |parts| == |list.items|
                    && forall i :: 0 <= i < |list.items| ==> StandsForChild(list.items[i], parts[i], slots)
  }

  function Joined(parts: seq<seq<Json>>): seq<Json> {
    if parts == [] then [] else parts[0] + Joined(parts[1..])
  }

  ghost predicate StandsForChild(child: Json, items: seq<Json>, slots: Fields)
    decreases child, 1
  {
    if !child.Object? then items == [child]
    else if Child(child.fields, "type") == Some(String("slot")) then
      match StandIn(child.fields, slots) case None => items == [] case Some(list) => list == Array(items)
    else if Has(child.fields, "children") && Get(child.fields, "children").value.Array? then
      && |items| == 1 && items[0].Object?
      && ChildrenFilled(child.fields, items[0].fields, slots)
    else items == [child]
  }

  /** Nothing differs but the list of children, in which every slot is filled. */
  ghost predicate ChildrenFilled(before: Fields, after: Fields, slots: Fields)
    requires Has(before, "children") && Get(before, "children").value.Array?
    decreases Get(before, "children").value, 1
  {
    && |after| == |before| && KeepsOrder(before, after)
    && (forall k :: k != "children" ==> Get(after, k) == Get(before, k))
    && Get(after, "children").Some? && Get(after, "children").value.Array?
    && StandsFor(Get(before, "children").value, Get(after, "children").value.items, slots)
  }

  /** What is put in a slot's place: the value provided under its id, else its own children. */
  function StandIn(slot: Fields, slots: Fields): Option<Json> {
    match Child(slot, "id")
    case Some(String(id)) => if Has(slots, id) then Get(slots, id) else Child(slot, "children")
    case _ => Child(slot, "children")
  }

  /** The slot at an address below a list; nothing is looked for inside a slot. */
  function SlotIn(items: seq<Json>, address: seq<nat>): Option<Fields>
    decreases |address|
  {
    if address == [] || address[0] >= |items| || !items[address[0]].Object? then None
    else
      var child := items[address[0]].fields;
      if Child(child, "type") == Some(String("slot")) then if |address| == 1 then Some(child) else None
      else
        match Get(child, "children")
        case Some(Array(inner)) => SlotIn(inner, address[1..])
        case _ => None
  }

  /** A slot has a name, and what is put in its place is a list. */
  predicate FineSlot(slot: Fields, slots: Fields) {
    && Child(slot, "id").Some? && Child(slot, "id").value.String? && Child(slot, "id").value.s != ""
    && (StandIn(slot, slots).Some? ==> StandIn(slot, slots).value.Array?)
  }

  predicate SlotNamed(slot: Option<Fields>, id: string) {
    slot.Some? && Child(slot.value, "id") == Some(String(id))
  }

  /** Every slot is fine, no two have one name, and every provided value has its slot. */
  ghost predicate SlotsFit(items: seq<Json>, slots: Fields) {
    && (forall a :: SlotIn(items, a).Some? ==> FineSlot(SlotIn(items, a).value, slots))
    && AllOnce(items)
    && (forall i :: 0 <= i < |slots| ==> AnyNamed(items, slots[i].key))
  }

  ghost predicate AllOnce(items: seq<Json>) {
    forall a, b, id :: SlotNamed(SlotIn(items, a), id) && SlotNamed(SlotIn(items, b), id) ==> a == b
  }

  ghost predicate AnyNamed(items: seq<Json>, id: string) {
    exists a :: SlotNamed(SlotIn(items, a), id)
  }

  /** What filling a template's slots must give. */
  ghost predicate SlotsMean(root: Fields, slots: Fields, result: Option<Fields>) {
    if Has(root, "children") && Get(root, "children").value.Array? then
      if SlotsFit(Get(root, "children").value.items, slots)
      then result.Some? && ChildrenFilled(root, result.value, slots)
      else result.None?
    else result == if slots == [] then Some(root) else None
  }

  lemma StandInIs(slot: Json, slots: Fields)
    requires slot.Object?
    ensures SlotOk(slot, slots) <==> FineSlot(slot.fields, slots)
    ensures FineSlot(slot.fields, slots) ==> Replacement(slot, slots) == StandIn(slot.fields, slots)
    ensures FineSlot(slot.fields, slots) ==> SlotNamed(Some(slot.fields), SlotId(slot))
  {
    hide Child, Get, Has;
  }

  lemma {:induction false} FilledIsJoined(list: Json, i: nat, slots: Fields, parts: seq<seq<Json>>)
    requires list.Array? && i <= |list.items| && |parts| == |list.items|
    requires forall j :: 0 <= j < |list.items| ==> parts[j] == ChildFilled(list.items[j], slots)
    ensures Filled(list, i, slots) == Joined(parts[i..])
    decreases |list.items| - i
  {
    hide ChildFilled;
    if i < |list.items| {
      FilledIsJoined(list, i + 1, slots, parts);
      assert parts[i..][0] == parts[i] && parts[i..][1..] == parts[i + 1..];
    }
  }

  lemma {:induction false} FilledStandsFor(list: Json, slots: Fields)
    requires list.Array? && SlotsOk(list, 0, slots)
    ensures StandsFor(list, Filled(list, 0, slots), slots)
    decreases list, 0
  {
    hide SlotsOk, ChildOk, ChildFilled, StandsForChild, Filled;
    var parts := seq(|list.items|, i requires 0 <= i < |list.items| => ChildFilled(list.items[i], slots));
    FilledIsJoined(list, 0, slots, parts);
    assert parts[0..] == parts;
    forall i | 0 <= i < |list.items| ensures StandsForChild(list.items[i], parts[i], slots) {
      OkAt(list, 0, i, slots);
      ChildStandsFor(list.items[i], slots);
    }
  }

  lemma {:induction false} OkAt(list: Json, from: nat, i: nat, slots: Fields)
    requires list.Array? && from <= i < |list.items| && SlotsOk(list, from, slots)
    ensures ChildOk(list.items[i], slots)
    decreases i - from
  {
    hide ChildOk;
    if from < i {
      OkAt(list, from + 1, i, slots);
    }
  }

  lemma {:induction false} ChildStandsFor(child: Json, slots: Fields)
    requires ChildOk(child, slots)
    ensures StandsForChild(child, ChildFilled(child, slots), slots)
    decreases child, 1
  {
    hide Filled, StandsFor, SlotsOk, Child, Put;
    if IsSlot(child) {
      StandInIs(child, slots);
    } else if HasNested(child) {
      FilledStandsFor(Nested(child), slots);
      FilledFields(child.fields, slots);
    }
  }

  lemma FilledFields(fields: Fields, slots: Fields)
    requires Has(fields, "children") && Get(fields, "children").value.Array?
    requires StandsFor(Get(fields, "children").value, Filled(Get(fields, "children").value, 0, slots), slots)
    ensures var list := Array(Filled(Get(fields, "children").value, 0, slots));
            ChildrenFilled(fields, Put(fields, "children", list), slots)
  {
    hide Filled, StandsFor;
    var value := Array(Filled(Get(fields, "children").value, 0, slots));
    forall k ensures k != "children" ==> Get(Put(fields, "children", value), k) == Get(fields, k) {
      PutGets(fields, "children", value, k);
    }
    PutGets(fields, "children", value, "children");
  }

  // ---- When a template's slots can be filled ----

  predicate InChild(address: seq<nat>, i: nat) {
    address != [] && address[0] == i
  }

  predicate InRest(address: seq<nat>, i: nat) {
    address != [] && address[0] >= i
  }

  lemma SlotInChild(items: seq<Json>, i: nat, address: seq<nat>)
    requires i < |items| && InChild(address, i)
    ensures var child := items[i];
            && (IsSlot(child) ==> SlotIn(items, address) == if address == [i] then Some(child.fields) else None)
            && (HasNested(child) ==> SlotIn(items, address) == SlotIn(Nested(child).items, address[1..]))
            && (!IsSlot(child) && !HasNested(child) ==> SlotIn(items, address).None?)
  {
    hide Child;
    if address != [i] {
      assert |address| == 1 ==> address == [i];
    }
  }

  lemma NoSlotAfter(items: seq<Json>)
    ensures forall a :: InRest(a, |items|) ==> SlotIn(items, a).None?
    ensures forall a :: SlotIn(items, a).Some? ==> InRest(a, 0)
  {
  }

  /** Whether the slots below a child, or from one of the children on, are fine. */
  lemma {:induction false} RestOk(list: Json, i: nat, slots: Fields)
    requires list.Array? && i <= |list.items|
    ensures SlotsOk(list, i, slots) <==>
            forall a :: InRest(a, i) && SlotIn(list.items, a).Some? ==> FineSlot(SlotIn(list.items, a).value, slots)
    decreases list, 1, |list.items| - i
  {
    hide ChildOk, SlotIn, FineSlot;
    if i < |list.items| {
      RestOk(list, i + 1, slots);
      ChildIsOk(list, i, slots);
      assert forall a :: InRest(a, i) <==> InChild(a, i) || InRest(a, i + 1);
    } else {
      NoSlotAfter(list.items);
    }
  }

  lemma {:induction false} ChildIsOk(list: Json, i: nat, slots: Fields)
    requires list.Array? && i < |list.items|
    ensures ChildOk(list.items[i], slots) <==>
            forall a :: InChild(a, i) && SlotIn(list.items, a).Some? ==> FineSlot(SlotIn(list.items, a).value, slots)
    decreases list, 0, 0
  {
    hide SlotIn, FineSlot, SlotsOk, SlotOk, StringField, Child;
    var child := list.items[i];
    if HasNested(child) {
      RestOk(Nested(child), 0, slots);
      forall a | InChild(a, i) && SlotIn(list.items, a).Some?
        ensures InRest(a[1..], 0) && SlotIn(list.items, a) == SlotIn(Nested(child).items, a[1..])
      {
        NestedSlot(list.items, i, a);
      }
      forall a | InRest(a, 0)
        ensures InChild([i] + a, i) && SlotIn(list.items, [i] + a) == SlotIn(Nested(child).items, a)
      {
        NestedSlot(list.items, i, [i] + a);
      }
    } else {
      forall a | InChild(a, i)
        ensures SlotIn(list.items, a) == if IsSlot(child) && a == [i] then Some(child.fields) else None
      {
        SlotInChild(list.items, i, a);
      }
      assert InChild([i], i);
      if IsSlot(child) {
        StandInIs(child, slots);
      }
    }
  }

  lemma NestedSlot(items: seq<Json>, i: nat, a: seq<nat>)
    requires i < |items| && HasNested(items[i]) && InChild(a, i)
    ensures SlotIn(items, a) == SlotIn(Nested(items[i]).items, a[1..])
    ensures SlotIn(items, a).Some? ==> InRest(a[1..], 0)
  {
    SlotInChild(items, i, a);
  }

  /** Of the slots from one of the children on, no two have one name. */
  ghost predicate RestOnce(items: seq<Json>, i: nat) {
    forall a, b, id :: InRest(a, i) && InRest(b, i) && SlotNamed(SlotIn(items, a), id)
                       && SlotNamed(SlotIn(items, b), id)
      ==> a == b
  }

  ghost predicate ChildOnce(items: seq<Json>, i: nat) {
    forall a, b, id :: InChild(a, i) && InChild(b, i) && SlotNamed(SlotIn(items, a), id)
                       && SlotNamed(SlotIn(items, b), id)
      ==> a == b
  }

  ghost predicate InRestNamed(items: seq<Json>, i: nat, id: string) {
    exists a :: InRest(a, i) && SlotNamed(SlotIn(items, a), id)
  }

  ghost predicate InChildNamed(items: seq<Json>, i: nat, id: string) {
    exists a :: InChild(a, i) && SlotNamed(SlotIn(items, a), id)
  }

  lemma {:induction false} RestIds(list: Json, i: nat, slots: Fields)
    requires list.Array? && i <= |list.items| && SlotsOk(list, i, slots)
    ensures forall id :: id in Members(SlotIds(list, i)) <==> InRestNamed(list.items, i, id)
    ensures Distinct(SlotIds(list, i)) <==> RestOnce(list.items, i)
    decreases list, 1, |list.items| - i
  {
    hide ChildOk, SlotIn, Members, Distinct, SlotNamed, ChildIds, RestOnce;
    if i < |list.items| {
      RestIds(list, i + 1, slots);
      NamesOfChild(list, i, slots);
      FreshConcat(ChildIds(list.items[i]), SlotIds(list, i + 1), {});
      FreshIs(ChildIds(list.items[i]), {});
      FreshIs(SlotIds(list, i + 1), Members(ChildIds(list.items[i])));
      FreshIs(SlotIds(list, i), {});
      OnceMore(list.items, i, Members(ChildIds(list.items[i])), Members(SlotIds(list, i + 1)));
    } else {
      NoSlotAfter(list.items);
      FreshNone({});
      FreshIs([], {});
      NothingNamed(list.items);
    }
  }

  lemma NothingNamed(items: seq<Json>)
    requires forall a :: InRest(a, |items|) ==> SlotIn(items, a).None?
    ensures RestOnce(items, |items|) && forall id :: !InRestNamed(items, |items|, id)
  {
    hide SlotIn;
  }

  lemma FreshIs(ids: seq<string>, declared: set<string>)
    ensures Fresh(ids, declared) <==> Distinct(ids) && forall id :: id in Members(ids) ==> id !in declared
  {
    hide Distinct, Members;
  }

  lemma OnceMore(items: seq<Json>, i: nat, one: set<string>, rest: set<string>)
    requires forall id :: id in one <==> InChildNamed(items, i, id)
    requires forall id :: id in rest <==> InRestNamed(items, i + 1, id)
    ensures forall id :: InRestNamed(items, i, id) <==> id in one || id in rest
    ensures RestOnce(items, i) <==>
            ChildOnce(items, i) && RestOnce(items, i + 1) && forall id :: id in one ==> id !in rest
  {
    hide SlotIn, SlotNamed;
    assert forall a :: InRest(a, i) <==> InChild(a, i) || InRest(a, i + 1);
    assert forall a :: InChild(a, i) ==> !InRest(a, i + 1);
    if RestOnce(items, i) {
      forall id | id in one ensures id !in rest {
        var a :| InChild(a, i) && SlotNamed(SlotIn(items, a), id);
        forall b | InRest(b, i + 1) ensures !SlotNamed(SlotIn(items, b), id) {
        }
      }
    } else if ChildOnce(items, i) && RestOnce(items, i + 1) {
      var a, b, id :| InRest(a, i) && InRest(b, i) && SlotNamed(SlotIn(items, a), id)
                      && SlotNamed(SlotIn(items, b), id) && a != b;
      assert id in one && id in rest;
    }
  }

  lemma {:induction false} NamesOfChild(list: Json, i: nat, slots: Fields)
    requires list.Array? && i < |list.items| && ChildOk(list.items[i], slots)
    ensures forall id :: id in Members(ChildIds(list.items[i])) <==> InChildNamed(list.items, i, id)
    ensures Distinct(ChildIds(list.items[i])) <==> ChildOnce(list.items, i)
    decreases list, 0, 0
  {
    hide SlotIn, SlotIds, SlotOk, StringField, Child, FineSlot, Members, Distinct, SlotNamed;
    var child := list.items[i];
    if HasNested(child) {
      RestIds(Nested(child), 0, slots);
      NestedNames(list.items, i);
    } else {
      forall a | InChild(a, i)
        ensures SlotIn(list.items, a) == if IsSlot(child) && a == [i] then Some(child.fields) else None
      {
        SlotInChild(list.items, i, a);
      }
      assert InChild([i], i);
      if IsSlot(child) {
        StandInIs(child, slots);
        FreshOne(SlotId(child), {});
        FreshIs([SlotId(child)], {});
        OneName(child.fields, SlotId(child));
      } else {
        FreshNone({});
        FreshIs([], {});
        NoName();
      }
    }
  }

  lemma NoName()
    ensures forall id :: !SlotNamed(None, id)
  {
  }

  lemma OneName(slot: Fields, id: string)
    requires SlotNamed(Some(slot), id)
    ensures forall other :: SlotNamed(Some(slot), other) <==> other == id
    ensures forall other :: !SlotNamed(None, other)
  {
  }

  lemma NestedNames(items: seq<Json>, i: nat)
    requires i < |items| && HasNested(items[i])
    ensures forall id :: InChildNamed(items, i, id) <==> InRestNamed(Nested(items[i]).items, 0, id)
    ensures ChildOnce(items, i) <==> RestOnce(Nested(items[i]).items, 0)
  {
    hide SlotIn, HasNested;
    var inner := Nested(items[i]).items;
    forall a, id | InChild(a, i) && SlotNamed(SlotIn(items, a), id)
      ensures InRest(a[1..], 0) && SlotNamed(SlotIn(inner, a[1..]), id) && a == [i] + a[1..]
    {
      NestedSlot(items, i, a);
    }
    forall a, id | InRest(a, 0) && SlotNamed(SlotIn(inner, a), id)
      ensures InChild([i] + a, i) && SlotNamed(SlotIn(items, [i] + a), id)
    {
      assert ([i] + a)[1..] == a;
      NestedSlot(items, i, [i] + a);
    }
    if ChildOnce(items, i) {
      forall a, b, id | InRest(a, 0) && InRest(b, 0) && SlotNamed(SlotIn(inner, a), id)
                        && SlotNamed(SlotIn(inner, b), id)
        ensures a == b
      {
        assert [i] + a == [i] + b;
        assert ([i] + a)[1..] == a && ([i] + b)[1..] == b;
      }
    }
  }

  /** Filling the slots succeeds exactly when they fit, and puts each list in its place. */
  lemma SlotsAreMeant(root: Fields, slots: Fields)
    ensures SlotsMean(root, slots, SlotsApplied(root, slots))
  {
    hide SlotsOk, SlotIds, Filled, SlotsFit, ChildrenFilled, AllDeclared;
    if Has(root, "children") && Get(root, "children").value.Array? {
      var list := Get(root, "children").value;
      GoodFits(list, slots);
      if SlotsOk(list, 0, slots) {
        FilledStandsFor(list, slots);
        FilledFields(root, slots);
      }
    }
  }

  lemma GoodFits(list: Json, slots: Fields)
    requires list.Array?
    ensures SlotsFit(list.items, slots) <==> Good(list, 0, slots, {}) && AllDeclared(slots, SlotIds(list, 0))
  {
    hide SlotsOk, SlotIds, SlotIn, FineSlot, SlotNamed, Members, Fresh, AllDeclared;
    NoSlotAfter(list.items);
    RestOk(list, 0, slots);
    if SlotsOk(list, 0, slots) {
      RestIds(list, 0, slots);
      FreshIs(SlotIds(list, 0), {});
      OnceInAll(list.items);
      AllNamed(list, slots);
    }
  }

  lemma OnceInAll(items: seq<Json>)
    ensures RestOnce(items, 0) <==> AllOnce(items)
    ensures forall id :: InRestNamed(items, 0, id) <==> AnyNamed(items, id)
  {
    hide SlotIn;
    NoSlotAfter(items);
    forall a, id | SlotNamed(SlotIn(items, a), id) ensures InRest(a, 0) {
    }
    if RestOnce(items, 0) {
      forall a, b, id | SlotNamed(SlotIn(items, a), id) && SlotNamed(SlotIn(items, b), id) ensures a == b {
      }
    }
  }

  lemma AllNamed(list: Json, slots: Fields)
    requires list.Array? && forall id :: id in Members(SlotIds(list, 0)) <==> InRestNamed(list.items, 0, id)
    ensures AllDeclared(slots, SlotIds(list, 0)) <==>
            forall i :: 0 <= i < |slots| ==> AnyNamed(list.items, slots[i].key)
  {
    hide SlotIds, AnyNamed, InRestNamed;
    OnceInAll(list.items);
    var ids := SlotIds(list, 0);
    forall i | 0 <= i < |slots| ensures slots[i].key in ids <==> AnyNamed(list.items, slots[i].key) {
      assert slots[i].key in ids <==> slots[i].key in Members(ids);
    }
  }
}
