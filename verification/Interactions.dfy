/** Interaction templates: reusable property defaults, events and animations a node refers to by name. */
module Interactions {
  import opened Json

  datatype Result = Ok(fields: Fields) | Failed

  const COMMON_PROPS := "common_props"
  const STATE_STYLES := "state_styles"
  const EVENTS := "events"
  const ANIMATIONS := "animations"

  // ---- One template ----

  /** Object fields: the template's value becomes the default of the node's own. */
  function ObjectStep(target: Fields, interaction: Fields, field: string): Result {
    var from := FindKey(interaction, field);
    if from == |interaction| then Ok(target)
    else
      var value := interaction[from].value;
      var to := FindKey(target, field);
      if !value.Object? then Failed
      else if to == |target| then Ok(Put(target, interaction[from].key, value))
      else if !target[to].value.Object? then Failed
      else Ok(target[to := Entry(target[to].key, Object(WithDefaults(target[to].value.fields, value.fields, 0)))])
  }

  /** Removing an entry moves the last one into its place. */
  function Erased(fields: Fields, i: nat): Fields
    requires i < |fields|
  {
    fields[i := fields[|fields| - 1]][..|fields| - 1]
  }

  /** Array fields: the template's elements go in front of the node's own. */
  function ArrayStep(target: Fields, interaction: Fields, field: string): Result {
    var from := FindKey(interaction, field);
    if from == |interaction| then Ok(target)
    else
      var value := interaction[from].value;
      var to := FindKey(target, field);
      if !value.Array? then Failed
      else if to == |target| then Ok(Put(target, field, value))
      else if !target[to].value.Array? then Failed
      else Ok(Put(Erased(target, to), field, Array(value.items + target[to].value.items)))
  }

  function AppliedOne(target: Fields, interaction: Fields): Result {
    var a := ObjectStep(target, interaction, COMMON_PROPS);
    var b := if a.Ok? then ObjectStep(a.fields, interaction, STATE_STYLES) else Failed;
    var c := if b.Ok? then ArrayStep(b.fields, interaction, EVENTS) else Failed;
    if c.Ok? then ArrayStep(c.fields, interaction, ANIMATIONS) else Failed
  }

  /** The node's references are applied from the last to the first. */
  function Applied(target: Fields, refs: seq<string>, interactions: map<string, Fields>): Result
    decreases |refs|
  {
    if refs == [] then Ok(target)
    else
      var name, rest := refs[|refs| - 1], refs[..|refs| - 1];
      if name !in interactions then Failed
      else
        var one := AppliedOne(target, interactions[name]);
        if one.Ok? then Applied(one.fields, rest, interactions) else Failed
  }

  // ---- The four fields and their spellings ----

  predicate FieldName(field: string) {
    field == COMMON_PROPS || field == STATE_STYLES || field == EVENTS || field == ANIMATIONS
  }

  predicate NoCapital(s: string) {
    forall i :: 0 <= i < |s| ==> !IsUpper(s[i])
  }

  lemma {:induction false} SnakeAppend(a: string, b: string)
    requires NoCapital(a)
    ensures SnakeFrom(a + b, false) == a + SnakeFrom(b, false)
    decreases |a|
  {
    if a != "" {
      SnakeAppend(a[1..], b);
      assert (a + b)[1..] == a[1..] + b;
      assert a == [a[0]] + a[1..] && (a + b)[0] == a[0];
    } else {
      assert a + b == b;
    }
  }

  lemma {:induction false} CamelAppend(a: string, b: string)
    requires '_' !in a
    ensures CamelFrom(a + b, false) == a + CamelFrom(b, false)
    decreases |a|
  {
    if a != "" {
      assert a[0] in a && forall x :: x in a[1..] ==> x in a;
      CamelAppend(a[1..], b);
      assert (a + b)[1..] == a[1..] + b;
      assert a == [a[0]] + a[1..] && (a + b)[0] == a[0];
    } else {
      assert a + b == b;
    }
  }

  lemma NormalStart(s: string)
    requires NoCapital(s)
    ensures Normalized(s) == s
  {
    SnakeAppend(s, "");
    assert s + "" == s;
  }

  /** Camel case undoes itself on a name of two words. */
  lemma TwoWords(a: string, b: string)
    requires NoCapital(a) && NoCapital(b) && a != "" && '_' !in a && '_' !in b && b != "" && 'a' <= b[0] <= 'z'
    ensures Normalized(CamelFrom(a + "_" + b, false)) == a + "_" + b
  {
    var tail := "_" + b;
    CamelAppend(a, tail);
    assert a + "_" + b == a + tail && tail[1..] == b;
    assert CamelFrom(tail, false) == CamelFrom(b, true) == [Upper(b[0])] + CamelFrom(b[1..], false);
    assert forall x :: x in b[1..] ==> x in b;
    CamelAppend(b[1..], "");
    assert b[1..] + "" == b[1..];
    var camel := [Upper(b[0])] + b[1..];
    assert camel[1..] == b[1..] && IsUpper(camel[0]) && Lower(camel[0]) == b[0];
    SnakeAppend(b[1..], "");
    assert SnakeFrom(camel, false) == ['_', b[0]] + b[1..] == tail by {
      assert b == [b[0]] + b[1..];
    }
    SnakeAppend(a, camel);
    assert SnakeFrom(a + camel, true) == SnakeFrom(a + camel, false) by {
      assert (a + camel)[0] == a[0];
    }
  }

  /** A field is found under exactly the keys that normalise to it. */
  lemma FieldSpelling(key: string, field: string)
    requires FieldName(field)
    ensures FoundAs(key, field) <==> Normalized(key) == field
  {
    hide SnakeFrom, CamelFrom, Normalized;
    NormalStart(field);
    if field == COMMON_PROPS {
      TwoWords("common", "props");
      assert "common" + "_" + "props" == field;
    } else if field == STATE_STYLES {
      TwoWords("state", "styles");
      assert "state" + "_" + "styles" == field;
    }
  }

  /** No interaction field is spelled twice. */
  predicate NamesOnce(fields: Fields) {
    forall i, j :: 0 <= i < j < |fields| && FieldName(Normalized(fields[i].key)) ==>
      Normalized(fields[i].key) != Normalized(fields[j].key)
  }

  /** A node as the parser meets it: keys are unique and no interaction field is spelled twice. */
  predicate NodeFields(fields: Fields) {
    UniqueKeys(fields) && NamesOnce(fields)
  }

  lemma FieldFound(fields: Fields, field: string)
    requires FieldName(field)
    ensures var i := FindKey(fields, field);
            && (i < |fields| ==> Normalized(fields[i].key) == field)
            && (i == |fields| <==> forall j :: 0 <= j < |fields| ==> Normalized(fields[j].key) != field)
            && (NamesOnce(fields) ==> forall j :: 0 <= j < |fields| && Normalized(fields[j].key) == field ==> j == i)
  {
    hide FindKey, FoundAs, Normalized;
    FindsFound(fields, field);
    forall j | 0 <= j < |fields| ensures FoundAs(fields[j].key, field) <==> Normalized(fields[j].key) == field {
      FieldSpelling(fields[j].key, field);
    }
  }

  /** The value a field has is that of the only entry spelled like it. */
  lemma ChildIs(fields: Fields, field: string, i: nat)
    requires FieldName(field) && NamesOnce(fields) && i < |fields| && Normalized(fields[i].key) == field
    ensures FindKey(fields, field) == i && Child(fields, field) == Some(fields[i].value)
  {
    hide FindKey, Normalized;
    FieldFound(fields, field);
  }

  lemma ChildMissing(fields: Fields, field: string)
    requires FieldName(field) && forall j :: 0 <= j < |fields| ==> Normalized(fields[j].key) != field
    ensures FindKey(fields, field) == |fields| && Child(fields, field) == None
  {
    hide FindKey, Normalized;
    FieldFound(fields, field);
  }

  // ---- Three edits of a node ----

  /** A field the node lacks, added under any spelling. */
  lemma AddedField(fields: Fields, key: string, value: Json, other: string)
    requires NodeFields(fields) && FieldName(Normalized(key)) && FieldName(other)
    requires Child(fields, Normalized(key)) == None
    ensures var after := Put(fields, key, value);
            && NodeFields(after) && after == fields + [Entry(key, value)]
            && Child(after, other) == if other == Normalized(key) then Some(value) else Child(fields, other)
  {
    hide FindKey, Normalized, FieldName;
    var n := Normalized(key);
    FieldFound(fields, n);
    assert !Has(fields, key);
    var after := fields + [Entry(key, value)];
    assert NamesOnce(after);
    SameEntries(fields, after, other, n);
    if other == n {
      ChildIs(after, n, |fields|);
    }
  }

  /** Entries may move: a field keeps its value as long as the entries spelled like it are the same. */
  lemma SameEntries(a: Fields, b: Fields, field: string, except: string)
    requires FieldName(field) && NamesOnce(a) && NamesOnce(b)
    requires forall i :: 0 <= i < |a| && Normalized(a[i].key) != except ==> a[i] in b
    requires forall i :: 0 <= i < |b| && Normalized(b[i].key) != except ==> b[i] in a
    ensures field != except ==> Child(a, field) == Child(b, field)
  {
    hide FindKey, Normalized, NamesOnce, FieldName;
    FieldFound(a, field);
    FieldFound(b, field);
    var i, j := FindKey(a, field), FindKey(b, field);
    if field != except {
      if i < |a| {
        var k :| 0 <= k < |b| && b[k] == a[i];
        ChildIs(b, field, k);
      }
    }
  }

  /** A field's value replaced in place. */
  lemma ReplacedField(fields: Fields, i: nat, value: Json, other: string)
    requires NodeFields(fields) && i < |fields| && FieldName(Normalized(fields[i].key)) && FieldName(other)
    ensures var after := fields[i := Entry(fields[i].key, value)];
            && NodeFields(after)
            && Child(after, other) == if other == Normalized(fields[i].key) then Some(value) else Child(fields, other)
  {
    hide FindKey, Normalized, FieldName;
    var after, n := fields[i := Entry(fields[i].key, value)], Normalized(fields[i].key);
    assert forall j :: 0 <= j < |fields| ==> after[j].key == fields[j].key;
    assert NamesOnce(after) && UniqueKeys(after);
    ChildIs(after, n, i);
    assert forall j :: 0 <= j < |fields| && j != i ==> after[j] == fields[j];
    SameEntries(fields, after, other, n);
  }

  lemma ErasedGets(fields: Fields, i: nat, k: string)
    requires UniqueKeys(fields) && i < |fields|
    ensures UniqueKeys(Erased(fields, i))
    ensures Get(Erased(fields, i), k) == if k == fields[i].key then None else Get(fields, k)
  {
    var after, last := Erased(fields, i), |fields| - 1;
    assert forall j :: 0 <= j < last ==> after[j] == if j == i then fields[last] else fields[j];
    var at := IndexOf(fields, k);
    if at < |fields| && at != i {
      var to := if at == last then i else at;
      assert after[to] == fields[at];
      IndexIs(after, to);
    }
    var found := IndexOf(after, k);
    if found < |after| {
      IndexIs(fields, if found == i then last else found);
    }
  }

  /** A field removed, the last entry moving into its place. */
  lemma ErasedField(fields: Fields, i: nat, other: string)
    requires NodeFields(fields) && i < |fields| && FieldName(Normalized(fields[i].key)) && FieldName(other)
    ensures var after := Erased(fields, i);
            && NodeFields(after)
            && Child(after, other) == if other == Normalized(fields[i].key) then None else Child(fields, other)
  {
    hide FindKey, Normalized, FieldName;
    var after, last, n := Erased(fields, i), |fields| - 1, Normalized(fields[i].key);
    ErasedGets(fields, i, "");
    assert forall j :: 0 <= j < last ==> after[j] == if j == i then fields[last] else fields[j];
    ErasedOnce(fields, i);
    forall j | 0 <= j < |fields| && Normalized(fields[j].key) != n ensures fields[j] in after {
      assert after[if j == last then i else j] == fields[j];
    }
    SameEntries(fields, after, other, n);
    ChildMissing(after, n);
  }

  lemma ErasedOnce(fields: Fields, i: nat)
    requires NamesOnce(fields) && i < |fields| && FieldName(Normalized(fields[i].key))
    ensures NamesOnce(Erased(fields, i))
    ensures var after := Erased(fields, i);
            forall j :: 0 <= j < |after| ==> Normalized(after[j].key) != Normalized(fields[i].key)
  {
    hide Normalized, FieldName;
    var after, last := Erased(fields, i), |fields| - 1;
    assert forall j :: 0 <= j < last ==> after[j] == if j == i then fields[last] else fields[j];
    forall j, k | 0 <= j < k < |after| && FieldName(Normalized(after[j].key))
      ensures Normalized(after[j].key) != Normalized(after[k].key)
    {
      assert FieldName(Normalized(after[k].key)) || Normalized(after[j].key) != Normalized(after[k].key);
    }
  }

  // ---- What one step changes ----

  lemma ObjectStepGets(target: Fields, interaction: Fields, field: string, other: string)
    requires NodeFields(target) && field in {COMMON_PROPS, STATE_STYLES} && FieldName(other)
    requires ObjectStep(target, interaction, field).Ok?
    ensures var after, given := ObjectStep(target, interaction, field).fields, Child(interaction, field);
            && NodeFields(after)
            && (given.Some? ==>
              given.value.Object? && (Child(target, field).Some? ==> Child(target, field).value.Object?))
            && Child(after, other) == if other == field && given.Some?
                then Some(Kept(Child(target, field), given.value))
                                      else Child(target, other)
  {
    hide FindKey, Normalized, WithDefaults, Put;
    FieldFound(target, field);
    FieldFound(interaction, field);
    var from, to := FindKey(interaction, field), FindKey(target, field);
    if from < |interaction| {
      var value := interaction[from].value;
      if to == |target| {
        AddedField(target, interaction[from].key, value, other);
      } else {
        ReplacedField(target, to, Object(WithDefaults(target[to].value.fields, value.fields, 0)), other);
      }
    }
  }

  function Items(field: Option<Json>): seq<Json> {
    if field.Some? && field.value.Array? then field.value.items else []
  }

  /** A list put in front of the node's own. */
  lemma PrependedField(target: Fields, field: string, items: seq<Json>, other: string)
    requires NodeFields(target) && FieldName(field) && Normalized(field) == field && FieldName(other)
    ensures var to := FindKey(target, field);
            var base := if to < |target| then Erased(target, to) else target;
            var after := Put(base, field, Array(items));
            && NodeFields(after)
            && Child(after, other) == if other == field then Some(Array(items)) else Child(target, other)
  {
    hide FindKey, Normalized, Put, Erased, NamesOnce, UniqueKeys, FieldName;
    FieldFound(target, field);
    var to := FindKey(target, field);
    var base := if to < |target| then Erased(target, to) else target;
    if to < |target| {
      ErasedField(target, to, other);
      ErasedField(target, to, field);
    }
    AddedField(base, field, Array(items), other);
  }

  lemma ArrayStepGets(target: Fields, interaction: Fields, field: string, other: string)
    requires NodeFields(target) && field in {EVENTS, ANIMATIONS} && FieldName(other)
    requires ArrayStep(target, interaction, field).Ok?
    ensures var after := ArrayStep(target, interaction, field).fields;
            && NodeFields(after)
            && (other != field ==> Child(after, other) == Child(target, other))
            && Items(Child(after, field)) == Items(Child(interaction, field)) + Items(Child(target, field))
  {
    hide FindKey, Normalized, SnakeFrom, Put, Erased, NodeFields;
    NormalStart(field);
    var from, to := FindKey(interaction, field), FindKey(target, field);
    if from < |interaction| {
      var items := interaction[from].value.items + if to < |target| then target[to].value.items else [];
      assert to == |target| ==> items == interaction[from].value.items;
      PrependedField(target, field, items, other);
      PrependedField(target, field, items, field);
    }
  }

  /** One template: two object fields filled in, two lists put in front. */
  lemma OneGets(target: Fields, interaction: Fields, field: string)
    requires NodeFields(target) && AppliedOne(target, interaction).Ok? && FieldName(field)
    ensures var after, own, given := AppliedOne(target, interaction).fields, Child(target, field),
            Child(interaction, field);
            && NodeFields(after)
            && (field in {COMMON_PROPS, STATE_STYLES} ==>
                  && (given.Some? ==> given.value.Object? && (own.Some? ==> own.value.Object?))
                  && Child(after, field) == if given.Some? then Some(Kept(own, given.value)) else own)
            && (field in {EVENTS, ANIMATIONS} ==> Items(Child(after, field)) == Items(given) + Items(own))
  {
    hide ObjectStep, ArrayStep, Kept, NodeFields, Child;
    var a := ObjectStep(target, interaction, COMMON_PROPS);
    ObjectStepGets(target, interaction, COMMON_PROPS, field);
    var b := ObjectStep(a.fields, interaction, STATE_STYLES);
    ObjectStepGets(a.fields, interaction, STATE_STYLES, field);
    var c := ArrayStep(b.fields, interaction, EVENTS);
    ArrayStepGets(b.fields, interaction, EVENTS, field);
    ArrayStepGets(c.fields, interaction, ANIMATIONS, field);
  }

  // ---- When references can be applied ----

  predicate IsList(field: string) {
    field == EVENTS || field == ANIMATIONS
  }

  predicate RightKind(field: string, value: Option<Json>) {
    value.Some? ==> if IsList(field) then value.value.Array? else value.value.Object?
  }

  /** Each of the four fields the template has is of its kind, in the template and in the node. */
  ghost predicate TemplateFits(target: Fields, interaction: Fields) {
    forall field :: FieldName(field) && Child(interaction, field).Some? ==>
      RightKind(field, Child(interaction, field)) && RightKind(field, Child(target, field))
  }

  predicate FieldFits(target: Fields, interaction: Fields, field: string) {
    Child(interaction, field).Some? ==>
      RightKind(field, Child(interaction, field)) && RightKind(field, Child(target, field))
  }

  lemma ObjectStepFits(target: Fields, interaction: Fields, field: string)
    requires field in {COMMON_PROPS, STATE_STYLES}
    ensures ObjectStep(target, interaction, field).Ok? <==> FieldFits(target, interaction, field)
  {
    hide FindKey, WithDefaults, Put;
  }

  lemma ArrayStepFits(target: Fields, interaction: Fields, field: string)
    requires NodeFields(target) && field in {EVENTS, ANIMATIONS}
    ensures ArrayStep(target, interaction, field).Ok? <==> FieldFits(target, interaction, field)
    ensures ArrayStep(target, interaction, field).Ok? && Child(interaction, field).Some? ==>
              RightKind(field, Child(ArrayStep(target, interaction, field).fields, field))
    ensures Child(interaction, field).None? ==> ArrayStep(target, interaction, field) == Ok(target)
  {
    hide FindKey, Normalized, SnakeFrom, Put, Erased, NodeFields;
    NormalStart(field);
    var from, to := FindKey(interaction, field), FindKey(target, field);
    if from < |interaction| && interaction[from].value.Array? {
      if to == |target| {
        PrependedField(target, field, interaction[from].value.items, field);
      } else if target[to].value.Array? {
        PrependedField(target, field, interaction[from].value.items + target[to].value.items, field);
      }
    }
  }

  /** One template can be applied exactly when it fits; what fits afterwards is what fitted before. */
  lemma OneFits(target: Fields, interaction: Fields)
    requires NodeFields(target)
    ensures AppliedOne(target, interaction).Ok? <==> TemplateFits(target, interaction)
    ensures AppliedOne(target, interaction).Ok? ==>
              forall field :: FieldName(field) ==>
                (RightKind(field, Child(AppliedOne(target, interaction).fields, field)) <==>
                 RightKind(field, Child(target, field)))
  {
    hide ObjectStep, ArrayStep, Kept, NodeFields, Child;
    FourFields(target, interaction);
    ObjectStepFits(target, interaction, COMMON_PROPS);
    var a := ObjectStep(target, interaction, COMMON_PROPS);
    if a.Ok? {
      ObjectKinds(target, interaction, COMMON_PROPS);
      ObjectStepFits(a.fields, interaction, STATE_STYLES);
      var b := ObjectStep(a.fields, interaction, STATE_STYLES);
      if b.Ok? {
        ObjectKinds(a.fields, interaction, STATE_STYLES);
        ArrayStepFits(b.fields, interaction, EVENTS);
        var c := ArrayStep(b.fields, interaction, EVENTS);
        if c.Ok? {
          ArrayKinds(b.fields, interaction, EVENTS);
          ArrayStepFits(c.fields, interaction, ANIMATIONS);
          if ArrayStep(c.fields, interaction, ANIMATIONS).Ok? {
            ArrayKinds(c.fields, interaction, ANIMATIONS);
          }
        }
      }
    }
  }

  lemma FourFields(target: Fields, interaction: Fields)
    ensures TemplateFits(target, interaction) <==>
            && FieldFits(target, interaction, COMMON_PROPS) && FieldFits(target, interaction, STATE_STYLES)
            && FieldFits(target, interaction, EVENTS) && FieldFits(target, interaction, ANIMATIONS)
  {
    hide Child;
    assert FieldName(COMMON_PROPS) && FieldName(STATE_STYLES) && FieldName(EVENTS) && FieldName(ANIMATIONS);
  }

  /** A step leaves the kind of every field. */
  lemma ObjectKinds(target: Fields, interaction: Fields, field: string)
    requires NodeFields(target) && field in {COMMON_PROPS, STATE_STYLES}
    requires ObjectStep(target, interaction, field).Ok?
    ensures var after := ObjectStep(target, interaction, field).fields;
            && NodeFields(after)
            && forall other :: FieldName(other) ==>
                 (RightKind(other, Child(after, other)) <==> RightKind(other, Child(target, other)))
  {
    hide ObjectStep, NodeFields, Child, WithDefaults;
    ObjectStepGets(target, interaction, field, field);
    forall other | FieldName(other)
      ensures RightKind(other, Child(ObjectStep(target, interaction, field).fields, other)) <==>
              RightKind(other, Child(target, other))
    {
      ObjectStepGets(target, interaction, field, other);
    }
  }

  lemma ArrayKinds(target: Fields, interaction: Fields, field: string)
    requires NodeFields(target) && field in {EVENTS, ANIMATIONS}
    requires ArrayStep(target, interaction, field).Ok?
    ensures var after := ArrayStep(target, interaction, field).fields;
            && NodeFields(after)
            && forall other :: FieldName(other) ==>
                 (RightKind(other, Child(after, other)) <==> RightKind(other, Child(target, other)))
  {
    hide ArrayStep, NodeFields, Child;
    ArrayStepFits(target, interaction, field);
    ArrayStepGets(target, interaction, field, field);
    forall other | FieldName(other)
      ensures RightKind(other, Child(ArrayStep(target, interaction, field).fields, other)) <==>
              RightKind(other, Child(target, other))
    {
      ArrayStepGets(target, interaction, field, other);
    }
  }

  /** The references can be applied exactly when each names a template and all of those fit the node as it came. */
  lemma {:induction false} AppliedExactly(target: Fields, refs: seq<string>, interactions: map<string, Fields>)
    requires NodeFields(target)
    ensures Applied(target, refs, interactions).Ok? <==>
            forall i :: 0 <= i < |refs| ==> refs[i] in interactions && TemplateFits(target, interactions[refs[i]])
    decreases |refs|
  {
    hide AppliedOne, NodeFields, Child;
    if refs != [] {
      var n := |refs| - 1;
      var name, rest := refs[n], refs[..n];
      if name in interactions {
        OneFits(target, interactions[name]);
        var one := AppliedOne(target, interactions[name]);
        if one.Ok? {
          OneGets(target, interactions[name], EVENTS);
          AppliedExactly(one.fields, rest, interactions);
          forall i | 0 <= i < n && refs[i] in interactions
            ensures TemplateFits(one.fields, interactions[rest[i]]) <==> TemplateFits(target, interactions[refs[i]])
          {
          }
        }
      }
    }
  }

  // ---- What stays as it is ----

  lemma ObjectStepOthers(target: Fields, interaction: Fields, field: string, k: string)
    requires FieldName(field) && Normalized(k) != field && ObjectStep(target, interaction, field).Ok?
    ensures Get(ObjectStep(target, interaction, field).fields, k) == Get(target, k)
  {
    hide FindKey, Normalized, WithDefaults, Put;
    FieldFound(target, field);
    FieldFound(interaction, field);
    var from, to := FindKey(interaction, field), FindKey(target, field);
    if from < |interaction| {
      if to == |target| {
        PutGets(target, interaction[from].key, interaction[from].value, k);
      } else {
        var value := Object(WithDefaults(target[to].value.fields, interaction[from].value.fields, 0));
        InPlaceGets(target, to, value, k);
      }
    }
  }

  lemma InPlaceGets(fields: Fields, i: nat, value: Json, k: string)
    requires i < |fields| && fields[i].key != k
    ensures Get(fields[i := Entry(fields[i].key, value)], k) == Get(fields, k)
  {
    var after := fields[i := Entry(fields[i].key, value)];
    assert forall j :: 0 <= j < |fields| ==> after[j].key == fields[j].key;
    assert IndexOf(after, k) == IndexOf(fields, k);
  }

  lemma PrependedOthers(target: Fields, field: string, items: seq<Json>, k: string)
    requires UniqueKeys(target) && FieldName(field) && Normalized(field) == field && Normalized(k) != field
    ensures var to := FindKey(target, field);
            Get(Put(if to < |target| then Erased(target, to) else target, field, Array(items)), k) == Get(target, k)
  {
    hide FindKey, Normalized, Put, Erased, FieldName, UniqueKeys;
    FieldFound(target, field);
    var to := FindKey(target, field);
    if to < |target| {
      ErasedGets(target, to, k);
    }
    PutGets(if to < |target| then Erased(target, to) else target, field, Array(items), k);
  }

  lemma ArrayStepOthers(target: Fields, interaction: Fields, field: string, k: string)
    requires UniqueKeys(target) && field in {EVENTS, ANIMATIONS} && Normalized(k) != field
    requires ArrayStep(target, interaction, field).Ok?
    ensures Get(ArrayStep(target, interaction, field).fields, k) == Get(target, k)
  {
    hide FindKey, Normalized, SnakeFrom, Put, Erased, UniqueKeys;
    NormalStart(field);
    var from, to := FindKey(interaction, field), FindKey(target, field);
    if from < |interaction| {
      var items := interaction[from].value.items + if to < |target| then target[to].value.items else [];
      assert to == |target| ==> items == interaction[from].value.items;
      PrependedOthers(target, field, items, k);
    }
  }

  lemma OneOthers(target: Fields, interaction: Fields, k: string)
    requires NodeFields(target) && AppliedOne(target, interaction).Ok? && !FieldName(Normalized(k))
    ensures Get(AppliedOne(target, interaction).fields, k) == Get(target, k)
  {
    hide ObjectStep, ArrayStep, Normalized, NamesOnce;
    var a := ObjectStep(target, interaction, COMMON_PROPS);
    ObjectStepOthers(target, interaction, COMMON_PROPS, k);
    ObjectStepGets(target, interaction, COMMON_PROPS, EVENTS);
    var b := ObjectStep(a.fields, interaction, STATE_STYLES);
    ObjectStepOthers(a.fields, interaction, STATE_STYLES, k);
    ObjectStepGets(a.fields, interaction, STATE_STYLES, EVENTS);
    var c := ArrayStep(b.fields, interaction, EVENTS);
    ArrayStepOthers(b.fields, interaction, EVENTS, k);
    ArrayStepGets(b.fields, interaction, EVENTS, EVENTS);
    ArrayStepOthers(c.fields, interaction, ANIMATIONS, k);
  }

  // ---- What a list of references resolves to ----

  /** The referenced templates' lists one after the other, in the order of the references. */
  function ListsOf(refs: seq<string>, interactions: map<string, Fields>, field: string): seq<Json> {
    if refs == [] then []
    else
      var n := |refs| - 1;
      ListsOf(refs[..n], interactions, field)
      + if refs[n] in interactions then Items(Child(interactions[refs[n]], field)) else []
  }

  /** Events and animations: the templates' in reference order, then the node's own. */
  lemma {:induction false} ListsInOrder(source: Fields, refs: seq<string>, interactions: map<string, Fields>,
                                        field: string)
    requires NodeFields(source) && field in {EVENTS, ANIMATIONS} && Applied(source, refs, interactions).Ok?
    ensures Items(Child(Applied(source, refs, interactions).fields, field))
         == ListsOf(refs, interactions, field) + Items(Child(source, field))
    decreases |refs|
  {
    hide AppliedOne, NodeFields, Items, Child;
    if refs != [] {
      var name, rest := refs[|refs| - 1], refs[..|refs| - 1];
      OneGets(source, interactions[name], field);
      ListsInOrder(AppliedOne(source, interactions[name]).fields, rest, interactions, field);
      var a, b, c := ListsOf(rest, interactions, field), Items(Child(interactions[name], field)),
          Items(Child(source, field));
      assert a + (b + c) == a + b + c;
    }
  }

  /** Everything not spelled like one of the four fields, a node's id, type and children included, is left alone. */
  lemma {:induction false} OthersUntouched(source: Fields, refs: seq<string>, interactions: map<string, Fields>,
                                           k: string)
    requires NodeFields(source) && !FieldName(Normalized(k)) && Applied(source, refs, interactions).Ok?
    ensures Get(Applied(source, refs, interactions).fields, k) == Get(source, k)
    decreases |refs|
  {
    hide AppliedOne, NodeFields, Normalized;
    if refs != [] {
      var name, rest := refs[|refs| - 1], refs[..|refs| - 1];
      OneOthers(source, interactions[name], k);
      OneGets(source, interactions[name], EVENTS);
      OthersUntouched(AppliedOne(source, interactions[name]).fields, rest, interactions, k);
    }
  }

  /** The object a field holds, empty when it holds none. */
  function Layer(fields: Fields, field: string): (r: Json)
    ensures r.Object?
  {
    if Child(fields, field).Some? && Child(fields, field).value.Object? then Child(fields, field).value else Object([])
  }

  /** The layers under the node's own, nearest first: the last reference, then the one before it, ... */
  function LayersOf(refs: seq<string>, interactions: map<string, Fields>, field: string): seq<Json> {
    if refs == [] then []
    else
      var n := |refs| - 1;
      [if refs[n] in interactions then Layer(interactions[refs[n]], field) else Object([])]
      + LayersOf(refs[..n], interactions, field)
  }

  function FirstAt(layers: seq<Json>, path: seq<string>): Option<Json> {
    if layers == [] then None else if At(layers[0], path).Some? then At(layers[0], path) else FirstAt(layers[1..], path)
  }

  /**
   * No value that is not an object stands in the way of the path, and every layer takes only its own keys for its
   * own.
   */
  predicate Layered(layers: seq<Json>, path: seq<string>) {
    && (forall i :: 0 <= i < |layers| ==> layers[i].Object? && WellFormed(layers[i]) && Open(layers[i], path))
    && (forall i, j :: 0 <= i < j < |layers| && layers[i].Object? && layers[j].Object? ==>
          Fits(layers[i].fields, layers[j].fields))
  }

  /** One template under a node: the node's value first, else the template's. */
  lemma LayerStep(target: Fields, interaction: Fields, field: string, path: seq<string>)
    requires NodeFields(target) && AppliedOne(target, interaction).Ok? && field in {COMMON_PROPS, STATE_STYLES} &&
             path != []
    requires var a, b := Layer(target, field), Layer(interaction, field);
             WellFormed(a) && WellFormed(b) && Open(a, path) && Open(b, path) && Fits(a.fields, b.fields)
    ensures var a, b, after := Layer(target, field), Layer(interaction, field),
            Layer(AppliedOne(target, interaction).fields, field);
            && (after == Object(WithDefaults(a.fields, b.fields, 0)) || (after == b && a == Object([])))
            && WellFormed(after) && Open(after, path)
            && (Scalar(At(a, path)) ==> At(after, path) == At(a, path))
            && (At(a, path).None? ==> At(after, path) == At(b, path))
  {
    hide NodeFields, WithDefaults, Fits, Child, AppliedOne;
    OneGets(target, interaction, field);
    AtStep([], path);
    var a, b := Layer(target, field), Layer(interaction, field);
    OwnValueFirst(a.fields, b.fields, path);
    DefaultsFormed(a.fields, b.fields);
    DefaultsOpen(a.fields, b.fields, path);
    if Child(interaction, field).None? {
      DefaultsEnd(a.fields, []);
    }
  }

  lemma FirstAtOneMore(a: Json, b: Json, both: Json, rest: seq<Json>, path: seq<string>)
    requires Scalar(At(a, path)) ==> At(both, path) == At(a, path)
    requires At(a, path).None? ==> At(both, path) == At(b, path)
    requires var f := FirstAt([a, b] + rest, path); f.None? || Scalar(f)
    ensures FirstAt([both] + rest, path) == FirstAt([a, b] + rest, path)
  {
    var l, m := [a, b] + rest, [both] + rest;
    assert l[1..] == [b] + rest && l[1..][1..] == rest && m[1..] == rest;
  }

  /** Merging the first two layers into one leaves a proper list of layers. */
  lemma LayersMerged(own: Json, below: Json, after: Json, more: seq<Json>, path: seq<string>)
    requires Layered([own, below] + more, path) && after.Object? && WellFormed(after) && Open(after, path)
    requires own.Object? && below.Object?
    requires after == Object(WithDefaults(own.fields, below.fields, 0)) || (after == below && own == Object([]))
    ensures Layered([after] + more, path)
  {
    hide WithDefaults, Fits, WellFormed, Open;
    var a, b := [own, below] + more, [after] + more;
    assert a[0] == own && a[1] == below;
    assert b[0] == after && forall i :: 0 < i < |b| ==> b[i] == a[i + 1];
    assert WellFormed(a[0]) && WellFormed(a[1]) && Fits(a[0].fields, a[1].fields);
    forall j | 0 < j < |b| ensures b[j].Object? && Fits(after.fields, b[j].fields) {
      assert b[j] == a[j + 1] && WellFormed(a[j + 1]);
      assert Fits(a[0].fields, a[j + 1].fields) && Fits(a[1].fields, a[j + 1].fields);
      DefaultsFit(own.fields, below.fields, b[j].fields);
    }
  }

  /**
   * Properties and state styles: along any path no layer blocks, the node's own value comes first, then that of a later
   * reference before that of an earlier one.
   */
  lemma {:induction false} NearestLayerWins(source: Fields, refs: seq<string>, interactions: map<string, Fields>,
                                            field: string, path: seq<string>)
    requires NodeFields(source) && Applied(source, refs, interactions).Ok?
    requires field in {COMMON_PROPS, STATE_STYLES} && path != []
    requires var layers := [Layer(source, field)] + LayersOf(refs, interactions, field);
             Layered(layers, path) && (FirstAt(layers, path).None? || Scalar(FirstAt(layers, path)))
    ensures At(Layer(Applied(source, refs, interactions).fields, field), path)
         == FirstAt([Layer(source, field)] + LayersOf(refs, interactions, field), path)
    decreases |refs|
  {
    hide AppliedOne, NodeFields, Child, Open, At, WithDefaults, Fits, WellFormed;
    var own := Layer(source, field);
    if refs == [] {
      assert [own] + [] == [own] && [own][1..] == [];
    } else {
      var last, rest := refs[|refs| - 1], refs[..|refs| - 1];
      var below, more := Layer(interactions[last], field), LayersOf(rest, interactions, field);
      var after := AppliedOne(source, interactions[last]).fields;
      var layers := [own, below] + more;
      assert [own] + LayersOf(refs, interactions, field) == layers;
      assert layers[0] == own && layers[1] == below;
      assert Fits(layers[0].fields, layers[1].fields);
      OneGets(source, interactions[last], field);
      LayerStep(source, interactions[last], field, path);
      FirstAtOneMore(own, below, Layer(after, field), more, path);
      LayersMerged(own, below, Layer(after, field), more, path);
      NearestLayerWins(after, rest, interactions, field, path);
    }
  }

  // ---- Loops ----

  method ApplyObjectField(target: Fields, interaction: Fields, field: string) returns (r: Result)
    ensures r == ObjectStep(target, interaction, field)
  {
    var from := FindKey(interaction, field);
    if from == |interaction| {
      return Ok(target);
    }
    if !interaction[from].value.Object? {
      return Failed;
    }
    var to := FindKey(target, field);
    if to == |target| {
      return Ok(Put(target, interaction[from].key, interaction[from].value));
    }
    if !target[to].value.Object? {
      return Failed;
    }
    var merged := MergeObjectDefaults(target[to].value.fields, interaction[from].value.fields);
    r := Ok(target[to := Entry(target[to].key, Object(merged))]);
  }

  method PrependArrayDefaults(target: Fields, defaults: Fields, field: string) returns (r: Result)
    ensures r == ArrayStep(target, defaults, field)
  {
    hide FindKey;
    var from := FindKey(defaults, field);
    if from == |defaults| {
      return Ok(target);
    }
    if !defaults[from].value.Array? {
      return Failed;
    }
    var merged: seq<Json> := [];
    for i := 0 to |defaults[from].value.items|
      invariant merged == defaults[from].value.items[..i]
    {
      merged := merged + [defaults[from].value.items[i]];
    }
    assert merged == defaults[from].value.items;
    var to, result := FindKey(target, field), target;
    if to < |target| {
      if !target[to].value.Array? {
        return Failed;
      }
      var own := target[to].value.items;
      for i := 0 to |own|
        invariant merged == defaults[from].value.items + own[..i]
      {
        merged := merged + [own[i]];
      }
      assert own[..|own|] == own;
      result := Erased(result, to);
    }
    r := Ok(Put(result, field, Array(merged)));
  }

  method ApplyInteractionTemplateObject(target: Fields, interaction: Fields) returns (r: Result)
    ensures r == AppliedOne(target, interaction)
  {
    hide ObjectStep, ArrayStep;
    var fields := [COMMON_PROPS, STATE_STYLES];
    r := Ok(target);
    for i := 0 to |fields|
      invariant r.Ok?
      invariant i == 0 ==> r == Ok(target)
      invariant i == 1 ==> r == ObjectStep(target, interaction, COMMON_PROPS)
      invariant i == 2 ==> ObjectStep(target, interaction, COMMON_PROPS).Ok? &&
                           r == ObjectStep(ObjectStep(target, interaction, COMMON_PROPS).fields, interaction,
                               STATE_STYLES)
    {
      r := ApplyObjectField(r.fields, interaction, fields[i]);
      if r.Failed? {
        return;
      }
    }
    r := PrependArrayDefaults(r.fields, interaction, EVENTS);
    if r.Failed? {
      return;
    }
    r := PrependArrayDefaults(r.fields, interaction, ANIMATIONS);
  }

  method ApplyInteractionTemplates(source: Fields, refs: seq<string>, interactions: map<string, Fields>)
    returns (r: Result)
    ensures r == Applied(source, refs, interactions)
  {
    hide AppliedOne;
    var target, i := source, |refs|;
    assert refs[..i] == refs;
    while i > 0
      invariant i <= |refs| && Applied(target, refs[..i], interactions) == Applied(source, refs, interactions)
    {
      i := i - 1;
      assert refs[..i + 1][..i] == refs[..i];
      if refs[i] !in interactions {
        return Failed;
      }
      var one := ApplyInteractionTemplateObject(target, interactions[refs[i]]);
      if one.Failed? {
        return Failed;
      }
      target := one.fields;
    }
    r := Ok(target);
  }
}
