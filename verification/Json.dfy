/** JSON values as the parser holds them: objects keep their entries in order, keys may be spelled two ways. */
module Json {

  datatype Option<T> = None | Some(value: T)

  datatype Json = Null | Bool(b: bool) | Number(n: int) | String(s: string) | Array(items: seq<Json>)
                | Object(fields: seq<Entry>)

  datatype Entry = Entry(key: string, value: Json)

  type Fields = seq<Entry>

  // ---- Objects ----

  /** Position of a key, the length when the object has no such key. */
  function IndexOf(fields: Fields, key: string): (i: nat)
    ensures i <= |fields| && (i < |fields| ==> fields[i].key == key)
    ensures forall j :: 0 <= j < i ==> fields[j].key != key
  {
    if fields == [] || fields[0].key == key then 0 else 1 + IndexOf(fields[1..], key)
  }

  predicate Has(fields: Fields, key: string) {
    IndexOf(fields, key) < |fields|
  }

  function Get(fields: Fields, key: string): Option<Json> {
    if Has(fields, key) then Some(fields[IndexOf(fields, key)].value) else None
  }

  /** insert_or_assign: in place when the key is there, at the end otherwise. */
  function Put(fields: Fields, key: string, value: Json): Fields {
    var i := IndexOf(fields, key);
    if i < |fields| then fields[i := Entry(key, value)] else fields + [Entry(key, value)]
  }

  predicate UniqueKeys(fields: Fields) {
    forall i, j :: 0 <= i < j < |fields| ==> fields[i].key != fields[j].key
  }

  /** No object inside has a key twice; every JSON object is like this. */
  predicate WellFormed(json: Json) {
    match json
    case Array(items) => forall i :: 0 <= i < |items| ==> WellFormed(items[i])
    case Object(fields) => UniqueKeys(fields) && forall i :: 0 <= i < |fields| ==> WellFormed(fields[i].value)
    case _ => true
  }

  lemma IndexIs(fields: Fields, i: nat)
    requires UniqueKeys(fields) && i < |fields|
    ensures IndexOf(fields, fields[i].key) == i
  {
  }

  lemma PutGets(fields: Fields, key: string, value: Json, k: string)
    ensures Get(Put(fields, key, value), k) == if k == key then Some(value) else Get(fields, k)
    ensures UniqueKeys(fields) ==> UniqueKeys(Put(fields, key, value))
    ensures |Put(fields, key, value)| == if Has(fields, key) then |fields| else |fields| + 1
  {
    var after, i := Put(fields, key, value), IndexOf(fields, key);
    var a, b := IndexOf(after, k), IndexOf(fields, k);
    if k == key {
      assert after[i].key == key;
      assert forall j :: 0 <= j < i ==> after[j].key == fields[j].key;
    } else {
      assert forall j :: 0 <= j < |fields| ==> after[j].key == fields[j].key;
    }
  }

  // ---- Merging: the source wins ----

  function Merged(destination: Json, source: Json): Json
    decreases source, 1
  {
    if destination.Object? && source.Object?
    then Object(MergedFields(destination.fields, source.fields, 0))
    else source
  }

  /** The entries of `source` from position `i` on, merged in one by one. */
  function MergedFields(destination: Fields, source: Fields, i: nat): Fields
    requires i <= |source|
    decreases source, 0, |source| - i
  {
    if i == |source| then destination
    else
      var e := source[i];
      var value := match Get(destination, e.key) case None => e.value case Some(old_) => Merged(old_, e.value);
      MergedFields(Put(destination, e.key, value), source, i + 1)
  }

  function Combined(before: Option<Json>, value: Json): Json {
    match before case None => value case Some(old_) => Merged(old_, value)
  }

  /** Merging fields key by key: what both have is merged, the rest is kept. */
  lemma {:induction false} MergedGets(destination: Fields, source: Fields, i: nat, k: string)
    requires UniqueKeys(source) && i <= |source|
    ensures var at := IndexOf(source, k);
            Get(MergedFields(destination, source, i), k)
            == if i <= at < |source| then Some(Combined(Get(destination, k), source[at].value)) else Get(destination, k)
    ensures UniqueKeys(destination) ==> UniqueKeys(MergedFields(destination, source, i))
    decreases |source| - i
  {
    hide Merged;
    if i < |source| {
      var e := source[i];
      var value := Combined(Get(destination, e.key), e.value);
      PutGets(destination, e.key, value, k);
      IndexIs(source, i);
      MergedGets(Put(destination, e.key, value), source, i + 1, k);
    }
  }

  // ---- Key spelling ----

  predicate IsUpper(c: char) {
    'A' <= c <= 'Z'
  }

  function Lower(c: char): char {
    if IsUpper(c) then (c as int + 32) as char else c
  }

  function Upper(c: char): char {
    if 'a' <= c <= 'z' then (c as int - 32) as char else c
  }

  /** Snake case: every capital but a leading one gets an underscore in front. */
  function SnakeFrom(key: string, first: bool): string {
    if key == "" then ""
    else
      (if !IsUpper(key[0]) then [key[0]] else if first then [Lower(key[0])] else ['_', Lower(key[0])])
      + SnakeFrom(key[1..], false)
  }

  function Normalized(key: string): string {
    SnakeFrom(key, true)
  }

  function CamelFrom(key: string, raise: bool): string {
    if key == "" then ""
    else if key[0] == '_' then CamelFrom(key[1..], true)
    else [if raise then Upper(key[0]) else key[0]] + CamelFrom(key[1..], false)
  }

  /** First entry whose key normalises to `key`. */
  function FirstSpelled(fields: Fields, key: string): (i: nat)
    ensures i <= |fields| && (i < |fields| ==> Normalized(fields[i].key) == key)
    ensures forall j :: 0 <= j < i ==> Normalized(fields[j].key) != key
  {
    if fields == [] || Normalized(fields[0].key) == key then 0 else 1 + FirstSpelled(fields[1..], key)
  }

  /** Looks a key up as given, then in camel case, then under any spelling. */
  function FindKey(fields: Fields, key: string): (i: nat)
    ensures i <= |fields|
  {
    if Has(fields, key) then IndexOf(fields, key)
    else if '_' in key && Has(fields, CamelFrom(key, false)) then IndexOf(fields, CamelFrom(key, false))
    else FirstSpelled(fields, key)
  }

  function Child(fields: Fields, key: string): Option<Json> {
    var i := FindKey(fields, key);
    if i < |fields| then Some(fields[i].value) else None
  }

  /** The spelling used throughout documents: no underscore, no leading capital. */
  predicate Camel(key: string) {
    '_' !in key && (key != "" ==> !IsUpper(key[0]))
  }

  lemma {:induction false} CamelOfSnake(key: string)
    requires '_' !in key
    ensures CamelFrom(SnakeFrom(key, false), false) == key
    decreases |key|
  {
    hide Upper, Lower;
    if key != "" {
      UpperLower(key[0]);
      var rest, snake := SnakeFrom(key[1..], false), SnakeFrom(key, false);
      assert forall c :: c in key[1..] ==> c in key;
      CamelOfSnake(key[1..]);
      assert key == [key[0]] + key[1..] && key[0] in key;
      if IsUpper(key[0]) {
        assert snake == ['_', Lower(key[0])] + rest;
        assert snake[1..] == [Lower(key[0])] + rest && snake[1..][1..] == rest;
        assert CamelFrom(snake, false) == CamelFrom(snake[1..], true);
        assert CamelFrom(snake[1..], true) == [Upper(Lower(key[0]))] + CamelFrom(rest, false);
      } else {
        assert snake == [key[0]] + rest && snake[1..] == rest;
      }
    }
  }

  lemma UpperLower(c: char)
    ensures IsUpper(c) ==> Upper(Lower(c)) == c && Lower(c) != '_'
    ensures !IsUpper(c) ==> Lower(c) == c
  {
  }

  lemma {:induction false} SnakeMarks(key: string)
    ensures '_' in SnakeFrom(key, false) || SnakeFrom(key, false) == key
    decreases |key|
  {
    hide Lower;
    if key != "" {
      SnakeMarks(key[1..]);
      assert key == [key[0]] + key[1..];
      if IsUpper(key[0]) {
        assert SnakeFrom(key, false)[0] == '_';
      }
    }
  }

  /** Two camel-case keys are never taken for each other. */
  lemma CamelRoundTrip(key: string)
    requires Camel(key)
    ensures CamelFrom(Normalized(key), false) == key
    ensures '_' in Normalized(key) || Normalized(key) == key
  {
    CamelOfSnake(key);
    SnakeMarks(key);
    assert Normalized(key) == SnakeFrom(key, false);
  }

  predicate CamelKeys(fields: Fields) {
    forall i :: 0 <= i < |fields| ==> Camel(fields[i].key)
  }

  /** In a camel-case object, looking a key up by its spelling is looking it up exactly. */
  lemma SpellingAgrees(fields: Fields, key: string)
    requires CamelKeys(fields) && Camel(key)
    ensures FindKey(fields, Normalized(key)) == IndexOf(fields, key)
  {
    hide CamelFrom, SnakeFrom, Normalized;
    CamelRoundTrip(key);
    assert forall i :: 0 <= i < |fields| ==> Camel(fields[i].key) && '_' !in fields[i].key;
    var snake, at := Normalized(key), FirstSpelled(fields, Normalized(key));
    if at < |fields| {
      CamelRoundTrip(fields[at].key);
      assert fields[at].key == key;
    }
  }

  // ---- When a lookup can find another key ----

  /** Whether an entry named `key` can be the answer to looking up `name`. */
  predicate FoundAs(key: string, name: string) {
    key == name || ('_' in name && key == CamelFrom(name, false)) || Normalized(key) == name
  }

  predicate Found(key: string, wanted: string) {
    FoundAs(key, Normalized(wanted))
  }

  /** A lookup answers with an entry that can be found, and answers nothing only when none can. */
  lemma FindsFound(fields: Fields, name: string)
    ensures var i := FindKey(fields, name); i < |fields| ==> FoundAs(fields[i].key, name)
    ensures FindKey(fields, name) == |fields| <==> forall j :: 0 <= j < |fields| ==> !FoundAs(fields[j].key, name)
  {
    hide Normalized, CamelFrom;
  }

  /** No entry but the one named `key` itself answers to the spelling of `key`. */
  predicate Clear(fields: Fields, key: string) {
    forall i :: 0 <= i < |fields| && Found(fields[i].key, key) ==> fields[i].key == key
  }

  lemma FindsItself(fields: Fields, key: string)
    requires Clear(fields, key)
    ensures FindKey(fields, Normalized(key)) == IndexOf(fields, key)
  {
    hide Normalized, CamelFrom;
    var n, at := Normalized(key), FirstSpelled(fields, Normalized(key));
    assert Has(fields, n) ==> Found(fields[IndexOf(fields, n)].key, key);
    assert '_' in n && Has(fields, CamelFrom(n, false)) ==>
      Found(fields[IndexOf(fields, CamelFrom(n, false))].key, key);
    assert at < |fields| ==> Found(fields[at].key, key);
  }

  // ---- Merging defaults: the target wins ----

  function WithDefaults(target: Fields, defaults: Fields, i: nat): Fields
    requires i <= |defaults|
    decreases defaults, |defaults| - i
  {
    if i == |defaults| then target
    else
      var e := defaults[i];
      var at := FindKey(target, Normalized(e.key));
      WithDefaults(
        if at == |target| then Put(target, e.key, e.value)
        else if target[at].value.Object? && e.value.Object?
        then target[at := Entry(target[at].key, Object(WithDefaults(target[at].value.fields, e.value.fields, 0)))]
        else target,
        defaults, i + 1)
  }

  function Kept(before: Option<Json>, value: Json): Json {
    match before
    case None => value
    case Some(own) => if own.Object? && value.Object? then Object(WithDefaults(own.fields, value.fields, 0)) else own
  }

  function WithDefault(target: Fields, e: Entry): Fields {
    var at := FindKey(target, Normalized(e.key));
    if at == |target| then Put(target, e.key, e.value)
    else if target[at].value.Object? && e.value.Object?
    then target[at := Entry(target[at].key, Object(WithDefaults(target[at].value.fields, e.value.fields, 0)))]
    else target
  }

  /** From entry `i` on, every default finds only itself, in the target and among the defaults before it. */
  predicate KeysFit(target: Fields, defaults: Fields, i: nat) {
    && (forall j :: i <= j < |defaults| ==> Clear(target, defaults[j].key))
    && (forall a, b :: i <= a < b < |defaults| ==> !Found(defaults[a].key, defaults[b].key))
  }

  /** At no level does a default take another key for its own. */
  predicate Fits(target: Fields, defaults: Fields)
    decreases defaults
  {
    && KeysFit(target, defaults, 0)
    && forall j :: 0 <= j < |defaults| && Has(target, defaults[j].key)
                   && Get(target, defaults[j].key).value.Object? && defaults[j].value.Object? ==>
         Fits(Get(target, defaults[j].key).value.fields, defaults[j].value.fields)
  }

  lemma PutKeys(fields: Fields, key: string, value: Json, i: nat)
    requires i < |Put(fields, key, value)|
    ensures var k := Put(fields, key, value)[i].key; k == key || (i < |fields| && fields[i].key == k)
  {
  }

  lemma DefaultGets(target: Fields, e: Entry, k: string)
    requires UniqueKeys(target) && Clear(target, e.key)
    ensures Get(WithDefault(target, e), k)
         == if k == e.key then Some(Kept(Get(target, k), e.value)) else Get(target, k)
    ensures UniqueKeys(WithDefault(target, e))
    ensures WithDefault(target, e) == Put(target, e.key, Kept(Get(target, e.key), e.value))
            || WithDefault(target, e) == target
  {
    hide Normalized, FindKey, WithDefaults, Clear;
    FindsItself(target, e.key);
    PutGets(target, e.key, Kept(Get(target, e.key), e.value), k);
  }

  lemma ClearAfter(target: Fields, e: Entry, key: string)
    requires UniqueKeys(target) && Clear(target, e.key) && Clear(target, key) && !Found(e.key, key)
    ensures Clear(WithDefault(target, e), key)
  {
    hide Found, FindKey, WithDefaults, Kept, Put, UniqueKeys, Normalized;
    DefaultGets(target, e, key);
    var after := WithDefault(target, e);
    forall i | 0 <= i < |after| && Found(after[i].key, key) ensures after[i].key == key {
      if after != target {
        PutKeys(target, e.key, Kept(Get(target, e.key), e.value), i);
      }
    }
  }

  /** Merging defaults key by key: the target's own values are kept, missing ones are filled in. */
  lemma {:induction false} DefaultsGet(target: Fields, defaults: Fields, i: nat, k: string)
    requires UniqueKeys(target) && UniqueKeys(defaults) && i <= |defaults| && KeysFit(target, defaults, i)
    ensures var at := IndexOf(defaults, k);
            Get(WithDefaults(target, defaults, i), k)
            == if i <= at < |defaults| then Some(Kept(Get(target, k), defaults[at].value)) else Get(target, k)
    ensures UniqueKeys(WithDefaults(target, defaults, i))
    decreases |defaults| - i
  {
    hide WithDefaults, WithDefault, KeysFit, Kept, UniqueKeys;
    if i < |defaults| {
      var next := WithDefault(target, defaults[i]);
      FitStep(target, defaults, i, k);
      IndexIs(defaults, i);
      DefaultsGet(next, defaults, i + 1, k);
    } else {
      DefaultsEnd(target, defaults);
    }
  }

  lemma DefaultsEnd(target: Fields, defaults: Fields)
    ensures WithDefaults(target, defaults, |defaults|) == target
  {
  }

  lemma DefaultsStep(target: Fields, defaults: Fields, i: nat)
    requires i < |defaults|
    ensures WithDefaults(target, defaults, i) == WithDefaults(WithDefault(target, defaults[i]), defaults, i + 1)
  {
    hide FindKey, Normalized;
  }

  lemma FitStep(target: Fields, defaults: Fields, i: nat, k: string)
    requires UniqueKeys(target) && i < |defaults| && KeysFit(target, defaults, i)
    ensures var e, next := defaults[i], WithDefault(target, defaults[i]);
            && WithDefaults(target, defaults, i) == WithDefaults(next, defaults, i + 1)
            && KeysFit(next, defaults, i + 1) && UniqueKeys(next)
            && Get(next, k) == if k == e.key then Some(Kept(Get(target, k), e.value)) else Get(target, k)
  {
    hide WithDefaults, WithDefault, Found, Clear, Kept, UniqueKeys;
    DefaultsStep(target, defaults, i);
    DefaultGets(target, defaults[i], k);
    forall j | i + 1 <= j < |defaults| ensures Clear(WithDefault(target, defaults[i]), defaults[j].key) {
      ClearAfter(target, defaults[i], defaults[j].key);
    }
  }

  /** The same value up to the order of object entries. */
  predicate Same(a: Json, b: Json)
    decreases a
  {
    if a.Object? && b.Object? then
      && (forall i :: 0 <= i < |b.fields| ==> Has(a.fields, b.fields[i].key))
      && (forall i :: 0 <= i < |a.fields| ==>
            Has(b.fields, a.fields[i].key) && Same(a.fields[i].value, Get(b.fields, a.fields[i].key).value))
    else a == b
  }

  lemma {:induction false} SameSelf(a: Json)
    requires WellFormed(a)
    ensures Same(a, a)
    decreases a
  {
    if a.Object? {
      forall i | 0 <= i < |a.fields|
        ensures Has(a.fields, a.fields[i].key) && Same(a.fields[i].value, Get(a.fields, a.fields[i].key).value)
      {
        IndexIs(a.fields, i);
        SameSelf(a.fields[i].value);
      }
    }
  }

  lemma FormedChild(fields: Fields, key: string)
    requires WellFormed(Object(fields)) && Has(fields, key)
    ensures WellFormed(Get(fields, key).value) && Get(fields, key).value < Object(fields)
    ensures UniqueKeys(fields)
  {
  }

  lemma FitsChild(target: Fields, defaults: Fields, key: string)
    requires Fits(target, defaults) && Has(target, key) && Has(defaults, key)
    requires Get(target, key).value.Object? && Get(defaults, key).value.Object?
    ensures Fits(Get(target, key).value.fields, Get(defaults, key).value.fields)
  {
    hide KeysFit;
    var j := IndexOf(defaults, key);
    assert defaults[j].key == key;
  }

  /** When no default takes another key for its own, filling in defaults is merging the target over the defaults. */
  lemma {:induction false} DefaultsAreMerge(target: Fields, defaults: Fields)
    requires WellFormed(Object(target)) && WellFormed(Object(defaults)) && Fits(target, defaults)
    ensures Same(Object(WithDefaults(target, defaults, 0)), Merged(Object(defaults), Object(target)))
    decreases Object(defaults)
  {
    hide WithDefaults, Merged, MergedFields, KeysFit, Fits;
    var a, b := WithDefaults(target, defaults, 0), MergedFields(defaults, target, 0);
    assert Merged(Object(defaults), Object(target)) == Object(b) by { MergedObjects(defaults, target); }
    FitsKeys(target, defaults);
    DefaultsGet(target, defaults, 0, "");
    forall k ensures Has(a, k) <==> Has(b, k) {
      DefaultsGet(target, defaults, 0, k);
      MergedGets(defaults, target, 0, k);
    }
    forall i | 0 <= i < |a| ensures Has(b, a[i].key) && Same(a[i].value, Get(b, a[i].key).value) {
      IndexIs(a, i);
      DefaultsGet(target, defaults, 0, a[i].key);
      SameAt(target, defaults, a[i].key);
    }
    forall i | 0 <= i < |b| ensures Has(a, b[i].key) {
      assert Has(b, b[i].key);
    }
  }

  lemma FitsKeys(target: Fields, defaults: Fields)
    requires Fits(target, defaults)
    ensures KeysFit(target, defaults, 0)
  {
  }

  lemma MergedObjects(a: Fields, b: Fields)
    ensures Merged(Object(a), Object(b)) == Object(MergedFields(a, b, 0))
  {
  }

  lemma SameAt(target: Fields, defaults: Fields, k: string)
    requires WellFormed(Object(target)) && WellFormed(Object(defaults)) && Fits(target, defaults)
    requires Has(target, k) || Has(defaults, k)
    ensures Has(WithDefaults(target, defaults, 0), k) && Has(MergedFields(defaults, target, 0), k)
    ensures Same(Get(WithDefaults(target, defaults, 0), k).value, Get(MergedFields(defaults, target, 0), k).value)
    decreases Object(defaults), 0
  {
    hide WithDefaults, MergedFields, KeysFit, Fits;
    FitsKeys(target, defaults);
    DefaultsGet(target, defaults, 0, k);
    MergedGets(defaults, target, 0, k);
    if Has(target, k) && Has(defaults, k) {
      FormedChild(target, k);
      FormedChild(defaults, k);
      var own, other := Get(target, k).value, Get(defaults, k).value;
      if own.Object? && other.Object? {
        FitsChild(target, defaults, k);
        DefaultsAreMerge(own.fields, other.fields);
      } else {
        SameSelf(own);
      }
    } else if Has(target, k) {
      FormedChild(target, k);
      SameSelf(Get(target, k).value);
    } else {
      FormedChild(defaults, k);
      SameSelf(Get(defaults, k).value);
    }
  }

  // ---- The converse ----

  /** No object inside, but for arrays, holds two keys of which one answers to the spelling of the other. */
  predicate Unambiguous(json: Json) {
    json.Object? ==>
      && (forall i, j :: 0 <= i < |json.fields| && 0 <= j < |json.fields| && i != j ==>
            !Found(json.fields[i].key, json.fields[j].key))
      && forall i :: 0 <= i < |json.fields| ==> Unambiguous(json.fields[i].value)
  }

  /** A default whose spelling finds another key is never added. */
  lemma {:induction false} NeverAdded(target: Fields, defaults: Fields, i: nat, k: string)
    requires i <= |defaults| && !Has(target, k) && !Clear(target, k)
    ensures !Has(WithDefaults(target, defaults, i), k)
    decreases |defaults| - i
  {
    hide WithDefaults, WithDefault, Clear;
    if i < |defaults| {
      DefaultsStep(target, defaults, i);
      StillMissing(target, defaults[i], k);
      NeverAdded(WithDefault(target, defaults[i]), defaults, i + 1, k);
    } else {
      DefaultsEnd(target, defaults);
    }
  }

  lemma StillMissing(target: Fields, e: Entry, k: string)
    requires !Has(target, k) && !Clear(target, k)
    ensures !Has(WithDefault(target, e), k) && !Clear(WithDefault(target, e), k)
  {
    hide Normalized, FindKey, Found;
    var at, next := FindKey(target, Normalized(e.key)), WithDefault(target, e);
    if e.key == k {
      FoundNotMissed(target, k);
    }
    var x :| 0 <= x < |target| && Found(target[x].key, k) && target[x].key != k;
    assert x < |next| && next[x].key == target[x].key;
    forall j | 0 <= j < |next| ensures next[j].key != k {
      if at == |target| {
        PutKeys(target, e.key, e.value, j);
      } else {
        assert next[j].key == target[j].key;
      }
    }
  }

  lemma FoundNotMissed(target: Fields, k: string)
    requires !Clear(target, k)
    ensures FindKey(target, Normalized(k)) < |target|
  {
    hide Normalized, CamelFrom, FoundAs;
    FindsFound(target, Normalized(k));
  }

  /**
   * For objects that do not themselves spell a key twice: filling in defaults and merging the target over the defaults
   * agree exactly when, at no level, a default finds another key.
   */
  lemma {:induction false} DefaultsAreMergeExactly(target: Fields, defaults: Fields)
    requires WellFormed(Object(target)) && WellFormed(Object(defaults))
    requires Unambiguous(Object(target)) && Unambiguous(Object(defaults))
    ensures Same(Object(WithDefaults(target, defaults, 0)), Merged(Object(defaults), Object(target))) <==>
            Fits(target, defaults)
    decreases Object(defaults)
  {
    hide WithDefaults, Merged, MergedFields, Found, Unambiguous;
    if Fits(target, defaults) {
      DefaultsAreMerge(target, defaults);
    }
    if Same(Object(WithDefaults(target, defaults, 0)), Merged(Object(defaults), Object(target))) {
      var a, b := WithDefaults(target, defaults, 0), MergedFields(defaults, target, 0);
      assert Merged(Object(defaults), Object(target)) == Object(b) by { MergedObjects(defaults, target); }
      AgreeingKeysFit(target, defaults);
      forall j | 0 <= j < |defaults| && Has(target, defaults[j].key)
                 && Get(target, defaults[j].key).value.Object? && defaults[j].value.Object?
        ensures Fits(Get(target, defaults[j].key).value.fields, defaults[j].value.fields)
      {
        var k := defaults[j].key;
        IndexIs(defaults, j);
        FormedChild(target, k);
        FormedChild(defaults, k);
        UnambiguousChild(target, IndexOf(target, k));
        UnambiguousChild(defaults, j);
        DefaultsGet(target, defaults, 0, k);
        MergedGets(defaults, target, 0, k);
        var own, other := Get(target, k).value, defaults[j].value;
        MergedObjects(other.fields, own.fields);
        var i := IndexOf(a, k);
        assert a[i].key == k && Same(a[i].value, Get(b, a[i].key).value);
        DefaultsAreMergeExactly(own.fields, other.fields);
      }
    }
  }

  lemma UnambiguousChild(fields: Fields, i: nat)
    requires Unambiguous(Object(fields)) && i < |fields|
    ensures Unambiguous(fields[i].value)
  {
  }

  lemma AgreeingKeysFit(target: Fields, defaults: Fields)
    requires WellFormed(Object(target)) && WellFormed(Object(defaults))
    requires Unambiguous(Object(target)) && Unambiguous(Object(defaults))
    requires Same(Object(WithDefaults(target, defaults, 0)), Object(MergedFields(defaults, target, 0)))
    ensures KeysFit(target, defaults, 0)
  {
    hide WithDefaults, MergedFields, Found;
    var a, b := WithDefaults(target, defaults, 0), MergedFields(defaults, target, 0);
    forall j | 0 <= j < |defaults| ensures Clear(target, defaults[j].key) {
      var k := defaults[j].key;
      if Has(target, k) {
        assert target[IndexOf(target, k)].key == k;
      } else if !Clear(target, k) {
        MergedGets(defaults, target, 0, k);
        IndexIs(defaults, j);
        assert b[IndexOf(b, k)].key == k;
        NeverAdded(target, defaults, 0, k);
      }
    }
  }

  /** Camel-case objects always fit. */
  lemma {:induction false} CamelFits(target: Fields, defaults: Fields)
    requires WellFormed(Object(target)) && WellFormed(Object(defaults))
    requires CamelStyle(Object(target)) && CamelStyle(Object(defaults))
    ensures Fits(target, defaults)
    decreases defaults
  {
    hide Normalized, CamelFrom;
    forall key, wanted | Camel(key) && Camel(wanted) && Found(key, wanted) ensures key == wanted {
      CamelRoundTrip(key);
      CamelRoundTrip(wanted);
    }
    hide Found;
    assert KeysFit(target, defaults, 0);
    forall j | 0 <= j < |defaults| && Has(target, defaults[j].key)
               && Get(target, defaults[j].key).value.Object? && defaults[j].value.Object?
      ensures Fits(Get(target, defaults[j].key).value.fields, defaults[j].value.fields)
    {
      CamelFits(Get(target, defaults[j].key).value.fields, defaults[j].value.fields);
    }
  }

  /** Every object inside, but not inside arrays, spells its keys in camel case. */
  predicate CamelStyle(json: Json) {
    json.Object? ==> CamelKeys(json.fields) && forall i :: 0 <= i < |json.fields| ==> CamelStyle(json.fields[i].value)
  }

  /** With two spellings of one key the two differ: the default is dropped, a plain merge would keep both. */
  lemma MixedSpelling()
    ensures var target, defaults := [Entry("a_b", Null)], [Entry("aB", Bool(true))];
            && WithDefaults(target, defaults, 0) == target
            && !Same(Object(target), Merged(Object(defaults), Object(target)))
  {
    var target, defaults := [Entry("a_b", Null)], [Entry("aB", Bool(true))];
    SnakeExample();
    assert IndexOf(target, "a_b") == 0;
    assert WithDefaults(target, defaults, 0) == WithDefaults(target, defaults, 1) == target;
    MergedGets(defaults, target, 0, "aB");
    assert IndexOf(defaults, "aB") == 0 && IndexOf(target, "aB") == 1;
    var b := MergedFields(defaults, target, 0);
    assert Has(b, "aB");
    assert b[IndexOf(b, "aB")].key == "aB";
  }

  lemma SnakeExample()
    ensures Normalized("aB") == "a_b"
  {
    assert "aB"[1..] == "B" && "B"[1..] == "";
    assert SnakeFrom("B", false) == "_b";
  }

  /** Keys that are no two spellings of one key are mixed up as well: "a_1" finds "a1". */
  lemma DigitSpelling()
    ensures Normalized("a1") != Normalized("a_1") && Found("a1", "a_1")
    ensures WithDefaults([Entry("a1", Null)], [Entry("a_1", Bool(true))], 0) == [Entry("a1", Null)]
  {
    assert "a_1"[1..] == "_1" && "_1"[1..] == "1" && "1"[1..] == "" && "a1"[1..] == "1";
    assert SnakeFrom("1", false) == "1" && SnakeFrom("_1", false) == "_1";
    assert Normalized("a_1") == "a_1" && Normalized("a1") == "a1";
    assert CamelFrom("1", true) == "1" == CamelFrom("1", false);
    assert CamelFrom("_1", false) == "1" && CamelFrom("a_1", false) == "a1";
    var target, defaults := [Entry("a1", Null)], [Entry("a_1", Bool(true))];
    assert "a_1"[1] == '_' && IndexOf(target, "a_1") == 1 && IndexOf(target, "a1") == 0;
    assert WithDefaults(target, defaults, 1) == target;
  }

  lemma SameByKeys(a: Fields, b: Fields)
    requires WellFormed(Object(a)) && forall k :: Get(a, k) == Get(b, k)
    ensures Same(Object(a), Object(b))
  {
    forall i | 0 <= i < |a| ensures Has(b, a[i].key) && Same(a[i].value, Get(b, a[i].key).value) {
      IndexIs(a, i);
      assert Get(a, a[i].key) == Get(b, a[i].key);
      SameSelf(a[i].value);
    }
    forall i | 0 <= i < |b| ensures Has(a, b[i].key) {
      assert Get(a, b[i].key) == Get(b, b[i].key);
    }
  }

  lemma TwiceSpelled(target: Fields, defaults: Fields)
    requires target == [Entry("a_b", Null), Entry("aB", Null)] && defaults == [Entry("aB", Bool(true))]
    ensures WithDefaults(target, defaults, 0) == target && !Fits(target, defaults)
  {
    SnakeExample();
    assert IndexOf(target, "a_b") == 0;
    DefaultsEnd(target, defaults);
    DefaultsStep(target, defaults, 0);
    assert Found(target[0].key, defaults[0].key);
  }

  /** An object that spells a key twice can agree by its values alone, so the exact condition needs it excluded. */
  lemma AmbiguousAgrees()
    ensures var target, defaults := [Entry("a_b", Null), Entry("aB", Null)], [Entry("aB", Bool(true))];
            && Same(Object(WithDefaults(target, defaults, 0)), Merged(Object(defaults), Object(target)))
            && !Fits(target, defaults)
  {
    var target, defaults := [Entry("a_b", Null), Entry("aB", Null)], [Entry("aB", Bool(true))];
    TwiceSpelled(target, defaults);
    MergedObjects(defaults, target);
    hide WithDefaults, MergedFields, Merged, Fits, Same;
    assert IndexOf(target, "a_b") == 0 && IndexOf(target, "aB") == 1;
    assert IndexOf(defaults, "aB") == 0;
    var b := MergedFields(defaults, target, 0);
    forall k ensures Get(target, k) == Get(b, k) {
      MergedGets(defaults, target, 0, k);
    }
    SameByKeys(target, b);
  }

  // ---- Walking a path of keys ----

  function At(json: Json, path: seq<string>): Option<Json>
    decreases |path|
  {
    if path == [] then Some(json)
    else if json.Object? && Has(json.fields, path[0]) then At(Get(json.fields, path[0]).value, path[1..])
    else None
  }

  /** No value of `json` that is not an object stands in the way of the path. */
  predicate Open(json: Json, path: seq<string>)
    decreases |path|
  {
    path == [] || (json.Object? && (Has(json.fields, path[0]) ==> Open(Get(json.fields, path[0]).value, path[1..])))
  }

  predicate Scalar(v: Option<Json>) {
    v.Some? && !v.value.Object?
  }

  lemma AtStep(fields: Fields, path: seq<string>)
    requires path != []
    ensures At(Object(fields), path)
         == match Get(fields, path[0]) { case None => None case Some(v) => At(v, path[1..]) }
  {
  }

  /**
   * Merging, path by path: a value of the source that is no object replaces what was there, an object stays one, the
   * paths the source says nothing about keep their values, and below a replacing value nothing is left.
   */
  predicate MergedAlong(destination: Json, source: Json, merged: Json, path: seq<string>) {
    match At(source, path)
    case Some(Object(_)) => At(merged, path).Some? && At(merged, path).value.Object?
    case Some(_) => At(merged, path) == At(source, path)
    case None => At(merged, path) == if Open(source, path) then At(destination, path) else None
  }

  lemma {:induction false} SourceWins(destination: Json, source: Json, path: seq<string>)
    requires WellFormed(source)
    ensures MergedAlong(destination, source, Merged(destination, source), path)
    decreases |path|
  {
    hide WellFormed, MergedFields;
    if path != [] && destination.Object? && source.Object? {
      var a, b, k, rest := destination.fields, source.fields, path[0], path[1..];
      hide Merged, MergedAlong;
      MergedKey(a, b, k);
      if Has(a, k) && Has(b, k) {
        FormedChild(b, k);
        SourceWins(Get(a, k).value, Get(b, k).value, rest);
      }
      KeyAlong(a, b, MergedFields(a, b, 0), path);
    }
  }

  lemma MergedKey(a: Fields, b: Fields, k: string)
    requires WellFormed(Object(b))
    ensures Merged(Object(a), Object(b)) == Object(MergedFields(a, b, 0))
    ensures Get(MergedFields(a, b, 0), k) == if Has(b, k) then Some(Combined(Get(a, k), Get(b, k).value)) else Get(a, k)
  {
    hide Merged, MergedFields;
    MergedObjects(a, b);
    MergedGets(a, b, 0, k);
  }

  /** The law for a whole path is the law for its rest, below its first key. */
  lemma KeyAlong(a: Fields, b: Fields, merged: Fields, path: seq<string>)
    requires path != []
    requires Get(merged, path[0])
             == if Has(b, path[0]) then Some(Combined(Get(a, path[0]), Get(b, path[0]).value)) else Get(a, path[0])
    requires Has(a, path[0]) && Has(b, path[0]) ==>
               MergedAlong(Get(a, path[0]).value, Get(b, path[0]).value, Get(merged, path[0]).value, path[1..])
    ensures MergedAlong(Object(a), Object(b), Object(merged), path)
  {
    hide Merged, At, Open, Has;
    AtStep(a, path);
    AtStep(b, path);
    AtStep(merged, path);
    OpenStep(b, path);
  }

  lemma OpenStep(fields: Fields, path: seq<string>)
    requires path != []
    ensures Open(Object(fields), path) <==> (Get(fields, path[0]).Some? ==> Open(Get(fields, path[0]).value, path[1..]))
  {
  }

  /** Along any path an own value stays, and a value the target lacks is the default's. */
  lemma {:induction false} OwnValueFirst(target: Fields, defaults: Fields, path: seq<string>)
    requires WellFormed(Object(target)) && WellFormed(Object(defaults)) && Fits(target, defaults)
    requires path != [] && Open(Object(target), path)
    ensures var result := Object(WithDefaults(target, defaults, 0));
            && (Scalar(At(Object(target), path)) ==> At(result, path) == At(Object(target), path))
            && (At(Object(target), path).None? ==> At(result, path) == At(Object(defaults), path))
    decreases |path|
  {
    hide WithDefaults, KeysFit, Fits;
    FitsKeys(target, defaults);
    var k, rest := path[0], path[1..];
    DefaultsGet(target, defaults, 0, k);
    AtStep(target, path);
    AtStep(defaults, path);
    AtStep(WithDefaults(target, defaults, 0), path);
    if Has(target, k) && Has(defaults, k) {
      FormedChild(target, k);
      FormedChild(defaults, k);
      var own, other := Get(target, k).value, Get(defaults, k).value;
      if own.Object? && other.Object? && rest != [] {
        FitsChild(target, defaults, k);
        OwnValueFirst(own.fields, other.fields, rest);
      }
    }
  }

  lemma {:induction false} DefaultsFormed(target: Fields, defaults: Fields)
    requires WellFormed(Object(target)) && WellFormed(Object(defaults)) && Fits(target, defaults)
    ensures WellFormed(Object(WithDefaults(target, defaults, 0)))
    decreases Object(defaults)
  {
    hide WithDefaults, KeysFit, Fits;
    FitsKeys(target, defaults);
    var after := WithDefaults(target, defaults, 0);
    DefaultsGet(target, defaults, 0, "");
    forall i | 0 <= i < |after| ensures WellFormed(after[i].value) {
      var k := after[i].key;
      IndexIs(after, i);
      DefaultsGet(target, defaults, 0, k);
      if Has(target, k) && Has(defaults, k) && Get(target, k).value.Object? && Get(defaults, k).value.Object? {
        FormedChild(defaults, k);
        FormedChild(target, k);
        FitsChild(target, defaults, k);
        DefaultsFormed(Get(target, k).value.fields, Get(defaults, k).value.fields);
      }
    }
  }

  lemma {:induction false} DefaultsOpen(target: Fields, defaults: Fields, path: seq<string>)
    requires WellFormed(Object(target)) && WellFormed(Object(defaults)) && Fits(target, defaults)
    requires Open(Object(target), path) && Open(Object(defaults), path)
    ensures Open(Object(WithDefaults(target, defaults, 0)), path)
    decreases |path|
  {
    hide WithDefaults, KeysFit, Fits;
    if path != [] {
      var k := path[0];
      FitsKeys(target, defaults);
      DefaultsGet(target, defaults, 0, k);
      if Has(target, k) && Has(defaults, k) && Get(target, k).value.Object? && Get(defaults, k).value.Object? {
        FormedChild(defaults, k);
        FormedChild(target, k);
        FitsChild(target, defaults, k);
        DefaultsOpen(Get(target, k).value.fields, Get(defaults, k).value.fields, path[1..]);
      }
    }
  }

  /** What two objects fit, the one filled in with the other fits. */
  lemma {:induction false} DefaultsFit(target: Fields, middle: Fields, defaults: Fields)
    requires WellFormed(Object(target)) && WellFormed(Object(middle)) && WellFormed(Object(defaults))
    requires Fits(target, middle) && Fits(target, defaults) && Fits(middle, defaults)
    ensures Fits(WithDefaults(target, middle, 0), defaults)
    decreases Object(middle)
  {
    hide WithDefaults, Found;
    var after := WithDefaults(target, middle, 0);
    DefaultsGet(target, middle, 0, "");
    forall j | 0 <= j < |defaults| ensures Clear(after, defaults[j].key) {
      forall i | 0 <= i < |after| && Found(after[i].key, defaults[j].key) ensures after[i].key == defaults[j].key {
        var k := after[i].key;
        DefaultsGet(target, middle, 0, k);
        assert Has(after, k);
        assert Has(target, k) ==> target[IndexOf(target, k)].key == k;
        assert Has(middle, k) ==> middle[IndexOf(middle, k)].key == k;
      }
    }
    hide Clear;
    forall j | 0 <= j < |defaults| && Has(after, defaults[j].key)
               && Get(after, defaults[j].key).value.Object? && defaults[j].value.Object?
      ensures Fits(Get(after, defaults[j].key).value.fields, defaults[j].value.fields)
    {
      var k := defaults[j].key;
      DefaultsGet(target, middle, 0, k);
      if Has(target, k) && Has(middle, k) && Get(target, k).value.Object? && Get(middle, k).value.Object? {
        FormedChild(target, k);
        FormedChild(middle, k);
        FormedChild(defaults, k);
        FitsChild(target, middle, k);
        IndexIs(defaults, j);
        FitsChild(target, defaults, k);
        FitsChild(middle, defaults, k);
        DefaultsFit(Get(target, k).value.fields, Get(middle, k).value.fields, defaults[j].value.fields);
      }
    }
  }

  // ---- Loops ----

  method MergeJson(destination: Json, source: Json) returns (merged: Json)
    ensures merged == Merged(destination, source)
    decreases source
  {
    hide MergedFields;
    if !destination.Object? || !source.Object? {
      return source;
    }
    var fields := destination.fields;
    for i := 0 to |source.fields|
      invariant MergedFields(fields, source.fields, i) == MergedFields(destination.fields, source.fields, 0)
    {
      MergedStep(fields, source.fields, i);
      var e := source.fields[i];
      var at := IndexOf(fields, e.key);
      if at == |fields| {
        fields := fields + [e];
      } else {
        var value := MergeJson(fields[at].value, e.value);
        fields := fields[at := Entry(e.key, value)];
      }
    }
    MergedEnd(fields, source.fields);
    merged := Object(fields);
  }

  lemma MergedStep(fields: Fields, source: Fields, i: nat)
    requires i < |source|
    ensures var e := source[i];
            MergedFields(fields, source, i)
            == MergedFields(Put(fields, e.key, Combined(Get(fields, e.key), e.value)), source, i + 1)
  {
  }

  lemma MergedEnd(fields: Fields, source: Fields)
    ensures MergedFields(fields, source, |source|) == fields
  {
  }

  method MergeObjectDefaults(target: Fields, defaults: Fields) returns (merged: Fields)
    ensures merged == WithDefaults(target, defaults, 0)
    decreases defaults
  {
    hide FindKey, Normalized;
    merged := target;
    for i := 0 to |defaults|
      invariant WithDefaults(merged, defaults, i) == WithDefaults(target, defaults, 0)
    {
      var e := defaults[i];
      var at := FindKey(merged, Normalized(e.key));
      if at == |merged| {
        merged := Put(merged, e.key, e.value);
      } else if merged[at].value.Object? && e.value.Object? {
        var value := MergeObjectDefaults(merged[at].value.fields, e.value.fields);
        merged := merged[at := Entry(merged[at].key, Object(value))];
      }
    }
  }
}
