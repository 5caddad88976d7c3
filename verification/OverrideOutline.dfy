/** Exactly when overrides leave every node's id, type and child structure as they were. */
module OverrideOutline {
  import opened Json
  import opened TemplateSlots

  function KeysOf(fields: Fields): seq<string> {
    seq(|fields|, i requires 0 <= i < |fields| => fields[i].key)
  }

  /** The same value under every key. */
  function Constant(keys: seq<string>, value: Json): (entries: Fields)
    ensures KeysOf(entries) == keys && forall i :: 0 <= i < |entries| ==> entries[i].value == value
  {
    seq(|keys|, i requires 0 <= i < |keys| => Entry(keys[i], value))
  }

  predicate Allowed(keys: seq<string>) {
    forall i :: 0 <= i < |keys| ==> keys[i] !in FORBIDDEN
  }

  predicate KeysHarmless(target: Fields, keys: seq<string>) {
    forall i :: 0 <= i < |keys| ==> Harmless(target, keys[i])
  }

  // ---- One target ----

  /** Once a write under `k` was noticed, the last noticed one is what is found there in the end. */
  lemma {:induction false} LastNoticed(target: Fields, entries: Fields, value: Json, k: string)
    requires k in STRUCTURAL && !value.Object? && PutEntries(target, entries).Some?
    requires forall i :: 0 <= i < |entries| ==> entries[i].value == value
    requires Child(target, k) == Some(value) ||
             exists i :: 0 <= i < |entries| && !HarmlessFor(target, entries[i].key, k)
    ensures Child(PutEntries(target, entries).value, k) == Some(value)
    decreases |entries|
  {
    hide Normalized, Child, HarmlessFor, Put;
    if entries != [] {
      var key, rest := entries[0].key, entries[1..];
      StructuralKeys();
      assert PutEntry(target, entries[0]) == Put(target, key, value);
      if HarmlessFor(target, key, k) {
        PutKeepsChild(target, key, value, k);
        forall i | 0 < i < |entries| && !HarmlessFor(target, entries[i].key, k)
          ensures rest[i - 1] == entries[i] && !HarmlessFor(Put(target, key, value), rest[i - 1].key, k)
        {
          HarmlessStays(target, key, value, entries[i].key, k);
        }
      } else {
        Harmful(target, key, k);
        WriteNoticed(target, key, value, k);
      }
      LastNoticed(Put(target, key, value), rest, value, k);
    }
  }

  lemma Harmful(target: Fields, key: string, k: string)
    requires !HarmlessFor(target, key, k)
    ensures !Has(target, k) && Normalized(key) == k && IndexOf(target, key) <= FirstSpelled(target, k)
  {
  }

  /** Whatever their values, entries under these keys leave a node's outline exactly when every key is harmless. */
  lemma EntriesUnnoticedExactly(target: Fields, keys: seq<string>)
    requires Allowed(keys)
    ensures (forall entries: Fields :: KeysOf(entries) == keys && PutEntries(target, entries).Some? ==>
               OutlineOf(Object(PutEntries(target, entries).value)) == OutlineOf(Object(target)))
            <==> KeysHarmless(target, keys)
  {
    hide OutlineOf, Harmless;
    if KeysHarmless(target, keys) {
      forall entries: Fields | KeysOf(entries) == keys && PutEntries(target, entries).Some?
        ensures OutlineOf(Object(PutEntries(target, entries).value)) == OutlineOf(Object(target))
      {
        assert forall i :: 0 <= i < |entries| ==> entries[i].key == KeysOf(entries)[i];
        EntriesKeepOutline(target, entries);
      }
    } else {
      var i :| 0 <= i < |keys| && !Harmless(target, keys[i]);
      var a, b := Constant(keys, Null), Constant(keys, Bool(true));
      EntriesNoticed(target, keys, i);
      assert OutlineOf(Object(PutEntries(target, a).value)) != OutlineOf(Object(PutEntries(target, b).value));
    }
  }

  /** With a harmful key among them, two values give two outlines. */
  lemma EntriesNoticed(target: Fields, keys: seq<string>, i: nat)
    requires Allowed(keys) && i < |keys| && !Harmless(target, keys[i])
    ensures var a, b := PutEntries(target, Constant(keys, Null)), PutEntries(target, Constant(keys, Bool(true)));
            a.Some? && b.Some? && OutlineOf(Object(a.value)) != OutlineOf(Object(b.value))
  {
    hide HarmlessFor, PutEntries, FindKey;
    var a, b := Constant(keys, Null), Constant(keys, Bool(true));
    forall j | 0 <= j < |keys| ensures a[j].key == keys[j] == b[j].key {
      assert KeysOf(a)[j] == keys[j] == KeysOf(b)[j];
    }
    EntriesAllowed(target, a);
    EntriesAllowed(target, b);
    var k :| k in STRUCTURAL && !HarmlessFor(target, keys[i], k);
    assert a[i].key == keys[i] == b[i].key;
    LastNoticed(target, a, Null, k);
    LastNoticed(target, b, Bool(true), k);
  }

  /**
   * Whatever its values, an override that is applied leaves the outline of the whole template exactly when none of its
   * keys can be taken for a structural one of its target.
   */
  lemma OverrideUnnoticedExactly(root: Fields, parts: seq<string>, keys: seq<string>)
    ensures (forall entries: Fields :: KeysOf(entries) == keys && Overridden(root, parts, entries).Some? ==>
               OutlineOf(Object(Overridden(root, parts, entries).value)) == OutlineOf(Object(root)))
            <==> (Target(root, parts).Some? && Allowed(keys) ==> KeysHarmless(Target(root, parts).value, keys))
  {
    hide OutlineOf, KeysHarmless, Overridden, PutEntries, Target;
    forall entries: Fields | KeysOf(entries) == keys
      ensures Overridden(root, parts, entries).Some? <==> Target(root, parts).Some? && Allowed(keys)
    {
      KeyAt(entries);
      OverrideReachesTarget(root, parts, entries);
    }
    if Target(root, parts).Some? && Allowed(keys) {
      var target := Target(root, parts).value;
      EntriesUnnoticedExactly(target, keys);
      forall entries: Fields | KeysOf(entries) == keys
        ensures PutEntries(target, entries).Some?
        ensures OutlineOf(Object(Overridden(root, parts, entries).value)) == OutlineOf(Object(root)) <==>
                OutlineOf(Object(PutEntries(target, entries).value)) == OutlineOf(Object(target))
      {
        TargetDecides(root, parts, entries);
      }
    }
  }

  lemma KeyAt(fields: Fields)
    ensures forall i :: 0 <= i < |fields| ==> fields[i].key == KeysOf(fields)[i]
  {
  }

  // ---- Values do not decide which writes are harmless ----

  /** The same keys all the way down, the same ids, the same number of children. */
  predicate SameShape(a: Json, b: Json)
    decreases a
  {
    a.Object? == b.Object? &&
    (a.Object? ==>
       var i, j := IndexOf(a.fields, CHILDREN), IndexOf(b.fields, CHILDREN);
       && KeysOf(a.fields) == KeysOf(b.fields) && Child(a.fields, "id") == Child(b.fields, "id")
       && (i < |a.fields| && j < |b.fields| ==>
             var x, y := a.fields[i].value, b.fields[j].value;
             && x.Array? == y.Array?
             && (x.Array? ==>
                   |x.items| == |y.items| && forall n :: 0 <= n < |x.items| ==> SameShape(x.items[n], y.items[n]))))
  }

  lemma {:induction false} SameShapeSelf(a: Json)
    ensures SameShape(a, a)
    decreases a
  {
    if a.Object? {
      var i := IndexOf(a.fields, CHILDREN);
      if i < |a.fields| && a.fields[i].value.Array? {
        var x := a.fields[i].value;
        forall n | 0 <= n < |x.items| ensures SameShape(x.items[n], x.items[n]) {
          SameShapeSelf(x.items[n]);
        }
      }
    }
  }

  lemma SameKeys(a: Fields, b: Fields, key: string)
    requires KeysOf(a) == KeysOf(b)
    ensures IndexOf(a, key) == IndexOf(b, key) && FirstSpelled(a, key) == FirstSpelled(b, key)
    ensures Harmless(a, key) <==> Harmless(b, key)
  {
    hide Normalized;
    SameIndex(a, b);
  }

  lemma SameIndex(a: Fields, b: Fields)
    requires KeysOf(a) == KeysOf(b)
    ensures forall k :: IndexOf(a, k) == IndexOf(b, k) && FirstSpelled(a, k) == FirstSpelled(b, k)
  {
    hide Normalized;
    KeyAt(a);
    KeyAt(b);
    assert |a| == |KeysOf(a)| == |KeysOf(b)| == |b|;
    forall k ensures IndexOf(a, k) == IndexOf(b, k) && FirstSpelled(a, k) == FirstSpelled(b, k) {
      var i, j, n, m := IndexOf(a, k), IndexOf(b, k), FirstSpelled(a, k), FirstSpelled(b, k);
      assert i < |a| ==> b[i].key == k;
      assert j < |b| ==> a[j].key == k;
      assert n < |a| ==> Normalized(b[n].key) == k;
      assert m < |b| ==> Normalized(a[m].key) == k;
    }
  }

  lemma PutShape(a: Fields, b: Fields, key: string, x: Json, y: Json)
    requires SameShape(Object(a), Object(b)) && key !in STRUCTURAL && Harmless(a, key)
    ensures SameShape(Object(Put(a, key, x)), Object(Put(b, key, y))) && Harmless(b, key)
  {
    hide Normalized, Child, HarmlessFor;
    SameKeys(a, b, key);
    StructuralKeys();
    assert HarmlessFor(a, key, "id") && HarmlessFor(b, key, "id");
    PutKeepsChild(a, key, x, "id");
    PutKeepsChild(b, key, y, "id");
    PutGets(a, key, x, CHILDREN);
    PutGets(b, key, y, CHILDREN);
    PutKeys(a, b, key, x, y);
    SameKeys(a, b, CHILDREN);
    SameKeys(Put(a, key, x), Put(b, key, y), CHILDREN);
  }

  lemma PutKeys(a: Fields, b: Fields, key: string, x: Json, y: Json)
    requires KeysOf(a) == KeysOf(b)
    ensures KeysOf(Put(a, key, x)) == KeysOf(Put(b, key, y))
  {
    hide Harmless, FirstSpelled;
    SameKeys(a, b, key);
    KeyAt(a);
    KeyAt(b);
    var p, q, at := Put(a, key, x), Put(b, key, y), IndexOf(a, key);
    assert |a| == |KeysOf(a)| == |KeysOf(b)| == |b|;
    forall i | 0 <= i < |p| ensures p[i].key == q[i].key {
      assert i < |a| ==> a[i].key == b[i].key;
    }
  }

  lemma {:induction false} EntriesShape(a: Fields, b: Fields, e: Fields, f: Fields)
    requires SameShape(Object(a), Object(b)) && KeysOf(e) == KeysOf(f)
    requires AllHarmless(a, e) && PutEntries(a, e).Some?
    ensures PutEntries(b, f).Some?
    ensures SameShape(Object(PutEntries(a, e).value), Object(PutEntries(b, f).value))
    decreases |e|
  {
    hide SameShape, Harmless, Put;
    KeyAt(e);
    KeyAt(f);
    assert |e| == |KeysOf(e)| == |KeysOf(f)| == |f|;
    if e != [] {
      var key := e[0].key;
      assert f[0].key == key;
      var x, y := PutEntry(a, e[0]), PutEntry(b, f[0]);
      var v, w := Written(a, e[0]), Written(b, f[0]);
      PutShape(a, b, key, v, w);
      forall i | 0 <= i < |e[1..]| ensures Harmless(x, e[1..][i].key) {
        assert e[1..][i] == e[i + 1];
        PutKeepsOutline(a, key, v, e[i + 1].key);
      }
      assert KeysOf(e[1..]) == KeysOf(e)[1..] && KeysOf(f[1..]) == KeysOf(f)[1..];
      EntriesShape(x, y, e[1..], f[1..]);
    }
  }

  lemma {:induction false} SameNamed(x: seq<Json>, y: seq<Json>, id: string)
    requires |x| == |y| && forall n :: 0 <= n < |x| ==> SameShape(x[n], y[n])
    ensures ChildNamed(x, id) == ChildNamed(y, id)
    decreases |x|
  {
    hide Normalized, FindKey;
    if x != [] {
      assert SameShape(x[0], y[0]);
      forall n | 0 <= n < |x[1..]| ensures SameShape(x[1..][n], y[1..][n]) {
        assert SameShape(x[n + 1], y[n + 1]);
      }
      SameNamed(x[1..], y[1..], id);
    }
  }

  /** The list the next part of an override path is looked up in, the same on both sides. */
  lemma SameLists(a: Fields, b: Fields)
    requires SameShape(Object(a), Object(b))
    ensures Has(a, CHILDREN) <==> Has(b, CHILDREN)
    ensures Has(a, CHILDREN) ==> (Get(a, CHILDREN).value.Array? <==> Get(b, CHILDREN).value.Array?)
    ensures Has(a, CHILDREN) && Get(a, CHILDREN).value.Array? ==>
      var x, y := Get(a, CHILDREN).value.items, Get(b, CHILDREN).value.items;
      |x| == |y| && forall n :: 0 <= n < |x| ==> SameShape(x[n], y[n])
  {
    SameKeys(a, b, CHILDREN);
    KeyAt(a);
    KeyAt(b);
    assert |a| == |KeysOf(a)| == |KeysOf(b)| == |b|;
  }

  lemma {:induction false} TargetShape(a: Fields, b: Fields, parts: seq<string>)
    requires SameShape(Object(a), Object(b))
    ensures Target(a, parts).Some? <==> Target(b, parts).Some?
    ensures Target(a, parts).Some? ==> SameShape(Object(Target(a, parts).value), Object(Target(b, parts).value))
    decreases |parts|
  {
    hide SameShape;
    if parts != [] {
      SameLists(a, b);
      if Has(a, CHILDREN) && Get(a, CHILDREN).value.Array? {
        var x, y := Get(a, CHILDREN).value.items, Get(b, CHILDREN).value.items;
        SameNamed(x, y, parts[0]);
        var i := ChildNamed(x, parts[0]);
        if i < |x| {
          ObjectsShape(x[i], y[i]);
          TargetShape(x[i].fields, y[i].fields, parts[1..]);
        }
      }
    }
  }

  lemma ObjectsShape(x: Json, y: Json)
    requires SameShape(x, y) && x.Object?
    ensures y.Object? && SameShape(Object(x.fields), Object(y.fields))
  {
    assert x == Object(x.fields) && y == Object(y.fields);
  }

  /** Replacing one child by others of one shape keeps the shape. */
  lemma ChildShape(a: Fields, b: Fields, i: nat, after: Json, other: Json)
    requires SameShape(Object(a), Object(b)) && SameShape(after, other)
    requires Has(a, CHILDREN) && Get(a, CHILDREN).value.Array? && i < |Get(a, CHILDREN).value.items|
    ensures Has(b, CHILDREN) && Get(b, CHILDREN).value.Array? && i < |Get(b, CHILDREN).value.items|
    ensures SameShape(Object(Put(a, CHILDREN, Array(Get(a, CHILDREN).value.items[i := after]))),
                      Object(Put(b, CHILDREN, Array(Get(b, CHILDREN).value.items[i := other]))))
  {
    hide Normalized, Child;
    SameLists(a, b);
    var v, w := Array(Get(a, CHILDREN).value.items[i := after]), Array(Get(b, CHILDREN).value.items[i := other]);
    var c, d := Put(a, CHILDREN, v), Put(b, CHILDREN, w);
    LowerCase();
    PutKeepsChild(a, CHILDREN, v, "id");
    PutKeepsChild(b, CHILDREN, w, "id");
    PutKeys(a, b, CHILDREN, v, w);
    PutGets(a, CHILDREN, v, CHILDREN);
    PutGets(b, CHILDREN, w, CHILDREN);
    assert c[IndexOf(c, CHILDREN)].value == v && d[IndexOf(d, CHILDREN)].value == w;
  }

  lemma {:induction false} OverriddenShape(a: Fields, b: Fields, parts: seq<string>, e: Fields, f: Fields)
    requires SameShape(Object(a), Object(b)) && KeysOf(e) == KeysOf(f) && Overridden(a, parts, e).Some?
    requires Target(a, parts).Some? && AllHarmless(Target(a, parts).value, e)
    ensures Overridden(b, parts, f).Some?
    ensures SameShape(Object(Overridden(a, parts, e).value), Object(Overridden(b, parts, f).value))
    decreases |parts|
  {
    hide SameShape, AllHarmless, PutEntries, Put;
    if parts == [] {
      EntriesShape(a, b, e, f);
    } else {
      SameLists(a, b);
      var x, y := Get(a, CHILDREN).value.items, Get(b, CHILDREN).value.items;
      SameNamed(x, y, parts[0]);
      var i := ChildNamed(x, parts[0]);
      ObjectsShape(x[i], y[i]);
      OverriddenShape(x[i].fields, y[i].fields, parts[1..], e, f);
      ChildShape(a, b, i, Object(Overridden(x[i].fields, parts[1..], e).value),
                 Object(Overridden(y[i].fields, parts[1..], f).value));
    }
  }

  // ---- A list of overrides ----

  /** The same path and the same keys, any values. */
  predicate SameWrite(e: Entry, f: Entry) {
    e.key == f.key && e.value.Object? == f.value.Object? &&
    (e.value.Object? ==> KeysOf(e.value.fields) == KeysOf(f.value.fields))
  }

  predicate SameWrites(overrides: Fields, others: Fields) {
    |overrides| == |others| && forall i :: 0 <= i < |others| ==> SameWrite(overrides[i], others[i])
  }

  lemma OneShape(a: Fields, b: Fields, e: Entry, f: Entry)
    requires SameShape(Object(a), Object(b)) && SameWrite(e, f)
    ensures OneApplied(a, e).Some? <==> OneApplied(b, f).Some?
    ensures OneHarmless(a, e) <==> OneHarmless(b, f)
    ensures OneHarmless(a, e) && OneApplied(a, e).Some? ==>
      SameShape(Object(OneApplied(a, e).value), Object(OneApplied(b, f).value))
  {
    hide SameShape, Overridden, Target, Harmless, PathParts;
    if e.value.Object? {
      var parts, x, y := OverrideParts(e.key), e.value.fields, f.value.fields;
      KeyAt(x);
      KeyAt(y);
      assert |x| == |KeysOf(x)| == |KeysOf(y)| == |y|;
      OverrideReachesTarget(a, parts, x);
      OverrideReachesTarget(b, parts, y);
      TargetShape(a, b, parts);
      if Target(a, parts).Some? {
        ShapeHarmless(Target(a, parts).value, Target(b, parts).value, x, y);
        if OneApplied(a, e).Some? && OneHarmless(a, e) {
          OverriddenShape(a, b, parts, x, y);
        }
      }
    }
  }

  lemma ShapeHarmless(a: Fields, b: Fields, x: Fields, y: Fields)
    requires SameShape(Object(a), Object(b)) && KeysOf(x) == KeysOf(y)
    ensures AllHarmless(a, x) <==> AllHarmless(b, y)
  {
    hide Harmless;
    KeyAt(x);
    KeyAt(y);
    assert |x| == |KeysOf(x)| == |KeysOf(y)| == |y|;
    forall i | 0 <= i < |x| ensures Harmless(a, x[i].key) <==> Harmless(b, y[i].key) {
      SameKeys(a, b, x[i].key);
    }
  }

  lemma {:induction false} RunShape(a: Fields, b: Fields, overrides: Fields, others: Fields)
    requires SameShape(Object(a), Object(b)) && SameWrites(overrides, others) && HarmlessRun(a, overrides)
    ensures HarmlessRun(b, others)
    decreases |overrides|
  {
    hide SameShape, OneApplied, OneHarmless, SameWrite;
    if overrides != [] {
      assert SameWrite(overrides[0], others[0]);
      OneShape(a, b, overrides[0], others[0]);
      if OneApplied(a, overrides[0]).Some? {
        assert forall i :: 0 <= i < |others[1..]| ==> SameWrite(overrides[1..][i], others[1..][i]) by {
          forall i | 0 <= i < |others[1..]| ensures SameWrite(overrides[1..][i], others[1..][i]) {
            assert SameWrite(overrides[i + 1], others[i + 1]);
          }
        }
        RunShape(OneApplied(a, overrides[0]).value, OneApplied(b, others[0]).value, overrides[1..], others[1..]);
      }
    }
  }

  lemma {:induction false} RunPrefix(root: Fields, overrides: Fields, n: nat)
    requires n <= |overrides| && HarmlessRun(root, overrides)
    ensures HarmlessRun(root, overrides[..n])
    decreases n
  {
    hide OneApplied, OneHarmless;
    if n > 0 && OneApplied(root, overrides[0]).Some? {
      assert overrides[..n][1..] == overrides[1..][..n - 1];
      RunPrefix(OneApplied(root, overrides[0]).value, overrides[1..], n - 1);
    }
  }

  /** However the values of the first `n` overrides are chosen, applying them leaves the outline. */
  ghost predicate Unnoticed(root: Fields, overrides: Fields) {
    forall n, others: Fields {:trigger SameWrites(overrides[..n], others)} ::
      0 <= n <= |overrides| && SameWrites(overrides[..n], others) && OverridesApplied(root, others).Some? ==>
      OutlineOf(Object(OverridesApplied(root, others).value)) == OutlineOf(Object(root))
  }

  /** A list of overrides with a harmful one among them: values for a first part of it that change the outline. */
  lemma {:induction false} NoticedSomewhere(root: Fields, overrides: Fields) returns (n: nat, others: Fields)
    requires !HarmlessRun(root, overrides)
    ensures n <= |overrides| && SameWrites(overrides[..n], others) && OverridesApplied(root, others).Some?
    ensures OutlineOf(Object(OverridesApplied(root, others).value)) != OutlineOf(Object(root))
    decreases |overrides|
  {
    hide OutlineOf, Overridden, Target, Harmless, PathParts;
    var e := overrides[0];
    if !OneHarmless(root, e) {
      others := OneNoticed(root, e);
      n := 1;
      assert overrides[..1] == [e];
    } else {
      var after := OneApplied(root, e).value;
      OverrideReachesTarget(root, OverrideParts(e.key), e.value.fields);
      OverrideKeepsOutline(root, OverrideParts(e.key), e.value.fields);
      var m, rest := NoticedSomewhere(after, overrides[1..]);
      n, others := m + 1, [e] + rest;
      assert overrides[..n] == [e] + overrides[1..][..m];
      assert others[1..] == rest;
    }
  }

  lemma OneNoticed(root: Fields, e: Entry) returns (others: Fields)
    requires !OneHarmless(root, e)
    ensures |others| == 1 && SameWrite(e, others[0]) && OverridesApplied(root, others).Some?
    ensures OutlineOf(Object(OverridesApplied(root, others).value)) != OutlineOf(Object(root))
  {
    hide OutlineOf, Overridden, Target, Harmless, PathParts;
    var parts, keys := OverrideParts(e.key), KeysOf(e.value.fields);
    KeyAt(e.value.fields);
    OverrideReachesTarget(root, parts, e.value.fields);
    OverrideUnnoticedExactly(root, parts, keys);
    var entries: Fields :| KeysOf(entries) == keys && Overridden(root, parts, entries).Some? &&
      OutlineOf(Object(Overridden(root, parts, entries).value)) != OutlineOf(Object(root));
    others := [Entry(e.key, Object(entries))];
    assert others[1..] == [];
  }

  /**
   * A list of overrides can never change the outline, whatever values its entries have and however many of the
   * overrides have been applied, exactly when each of them is harmless when its turn comes.
   */
  lemma OverridesUnnoticedExactly(root: Fields, overrides: Fields)
    ensures Unnoticed(root, overrides) <==> HarmlessRun(root, overrides)
  {
    hide OutlineOf, OverridesApplied, HarmlessRun, SameWrites;
    if HarmlessRun(root, overrides) {
      forall n, others: Fields {:trigger SameWrites(overrides[..n], others)} |
        0 <= n <= |overrides| && SameWrites(overrides[..n], others) && OverridesApplied(root, others).Some?
        ensures OutlineOf(Object(OverridesApplied(root, others).value)) == OutlineOf(Object(root))
      {
        RunPrefix(root, overrides, n);
        SameShapeSelf(Object(root));
        RunShape(root, root, overrides[..n], others);
        OverridesKeepOutline(root, others);
      }
    } else {
      var n, others := NoticedSomewhere(root, overrides);
    }
  }
}
