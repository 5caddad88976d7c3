/** Batched binding updates: coalesced, written silently, applied once per node, then announced. */
module BindingBatch {
  import Keys
  import opened Text

  type Uid = nat
  type Field = nat

  datatype Option<T> = None | Some(value: T)

  datatype Update = Update(path: string, key: string, value: string)

  /** One bit of an apply mask, tagged with its domain. */
  datatype Channel = Props(bit: nat) | Style(bit: nat) | Layout(bit: nat) | Placement(bit: nat)

  const TRANSFORM := Props(4)
  const IMAGE_SOURCE := Props(6)
  const SIZE := Placement(1)

  datatype Domain = PropsDomain | StyleDomain | LayoutDomain | PlacementDomain

  /** Where a field is applied: its domain and its mask in that domain. */
  datatype Target = Target(domain: Domain, bits: set<nat>)

  datatype Masks = Masks(props: set<nat>, style: set<nat>, layout: set<nat>, placement: set<nat>)

  const NO_MASKS := Masks({}, {}, {}, {})

  /** A declared binding: its store key and the field it writes, each missing when it does not resolve. */
  datatype Binding = Binding(key: Option<string>, field: Option<Field>)

  datatype NodeInfo = NodeInfo(image: bool, bindings: seq<Binding>)

  datatype FieldRef = FieldRef(uid: Uid, field: Field)
  datatype Slot = Slot(uid: Uid, channel: Channel)

  /** What does not change while values are set: the tree, its bindings, the target table, the parsers, the document. */
  datatype World = World(paths: map<string, Uid>, nodes: map<Uid, NodeInfo>, targets: Field -> Target,
                         accepts: (Field, string) -> bool, document: nat)

  /** Store contents, bound fields of the node records, and what the backend last received per node and mask bit. */
  datatype State = State(store: map<string, string>, fields: map<FieldRef, string>,
                         shown: map<Slot, map<FieldRef, string>>)

  // ---- Masks ----

  function MergeMask(m: Masks, t: Target): Masks {
    match t.domain
    case PropsDomain => m.(props := m.props + t.bits)
    case StyleDomain => m.(style := m.style + t.bits)
    case LayoutDomain => m.(layout := m.layout + t.bits)
    case PlacementDomain => m.(placement := m.placement + t.bits)
  }

  function ChannelsOf(m: Masks): set<Channel> {
    (set b | b in m.props :: Props(b)) + (set b | b in m.style :: Style(b)) +
    (set b | b in m.layout :: Layout(b)) + (set b | b in m.placement :: Placement(b))
  }

  /** Applying a size also re-applies the transform; applying an image source also re-applies the size. */
  function Applied(image: bool, cs: set<Channel>): set<Channel> {
    cs + (if SIZE in cs then {TRANSFORM} else {}) + (if image && IMAGE_SOURCE in cs then {SIZE} else {})
  }

  function TargetChannels(t: Target): set<Channel> {
    ChannelsOf(MergeMask(NO_MASKS, t))
  }

  lemma MergeMaskIsUnion(m: Masks, t: Target)
    ensures ChannelsOf(MergeMask(m, t)) == ChannelsOf(m) + TargetChannels(t)
  {
  }

  lemma AppliedIsAdditive(image: bool, a: set<Channel>, b: set<Channel>)
    ensures Applied(image, a + b) == Applied(image, a) + Applied(image, b)
  {
  }

  // ---- What one update writes and touches ----

  function StoreKey(w: World, u: Update): string {
    Keys.ScopedKey(w.document, u.path, u.key)
  }

  function TargetUid(w: World, u: Update): Option<Uid> {
    var query := QueryPath(u.path);
    if query != "/" && query in w.paths && w.paths[query] in w.nodes then Some(w.paths[query]) else None
  }

  predicate Matches(w: World, b: Binding, u: Update) {
    b.key == Some(u.key) && b.field.Some? && w.accepts(b.field.value, u.value)
  }

  /** Fields written by the first `n` bindings of a node: bound to this key, and accepting the value. */
  function MatchedRefs(w: World, uid: Uid, bindings: seq<Binding>, n: nat, u: Update): set<FieldRef>
    requires n <= |bindings|
  {
    set i | 0 <= i < n && Matches(w, bindings[i], u) :: FieldRef(uid, bindings[i].field.value)
  }

  function FieldRefs(w: World, u: Update): set<FieldRef> {
    var uid := TargetUid(w, u);
    if uid.None? then {}
    else MatchedRefs(w, uid.value, w.nodes[uid.value].bindings, |w.nodes[uid.value].bindings|, u)
  }

  /** Backend slots that show a field. */
  function Reach(w: World, r: FieldRef): set<Slot> {
    var image := r.uid in w.nodes && w.nodes[r.uid].image;
    set c | c in Applied(image, TargetChannels(w.targets(r.field))) :: Slot(r.uid, c)
  }

  function Touched(w: World, refs: set<FieldRef>): set<Slot> {
    set r, s | r in refs && s in Reach(w, r) :: s
  }

  /** What the backend receives for a slot: the current values of all fields it shows. */
  function Show(w: World, s: Slot, fields: map<FieldRef, string>): map<FieldRef, string> {
    map r | r in fields && s in Reach(w, r) :: fields[r]
  }

  function ShowAll(w: World, slots: set<Slot>, fields: map<FieldRef, string>): map<Slot, map<FieldRef, string>> {
    map s | s in slots :: Show(w, s, fields)
  }

  // ---- Runs of writes ----

  function StoreWrite(w: World, u: Update): map<string, string> {
    map[StoreKey(w, u) := u.value]
  }

  function FieldWrite(w: World, u: Update): map<FieldRef, string> {
    Valued(FieldRefs(w, u), u.value)
  }

  function Valued(refs: set<FieldRef>, value: string): map<FieldRef, string> {
    map r | r in refs :: value
  }

  function RunStore(w: World, store: map<string, string>, us: seq<Update>): map<string, string>
    decreases |us|
  {
    if us == [] then store else RunStore(w, store + StoreWrite(w, us[0]), us[1..])
  }

  function RunFields(w: World, fields: map<FieldRef, string>, us: seq<Update>): map<FieldRef, string>
    decreases |us|
  {
    if us == [] then fields else RunFields(w, fields + FieldWrite(w, us[0]), us[1..])
  }

  function AllRefs(w: World, us: seq<Update>): set<FieldRef> {
    if us == [] then {} else FieldRefs(w, us[0]) + AllRefs(w, us[1..])
  }

  // ---- Coalescing ----

  predicate SameTarget(a: Update, b: Update) {
    a.path == b.path && a.key == b.key
  }

  predicate Shadowed(us: seq<Update>, i: nat)
    requires i < |us|
  {
    exists j :: i < j < |us| && SameTarget(us[i], us[j])
  }

  /** The last update for every path and key, in order. */
  function Unshadowed(us: seq<Update>): seq<Update> {
    if us == [] then [] else (if Shadowed(us, 0) then [] else [us[0]]) + Unshadowed(us[1..])
  }

  lemma ShadowedTail(us: seq<Update>, i: nat)
    requires i < |us|
    ensures Shadowed(us[i..], 0) == Shadowed(us, i)
  {
    var t := us[i..];
    if Shadowed(us, i) {
      var j :| i < j < |us| && SameTarget(us[i], us[j]);
      assert t[j - i] == us[j];
    }
  }

  lemma UnshadowedFrom(us: seq<Update>, i: nat)
    requires i < |us|
    ensures Unshadowed(us[i..]) == (if Shadowed(us, i) then [] else [us[i]]) + Unshadowed(us[i + 1..])
  {
    ShadowedTail(us, i);
    assert us[i..][1..] == us[i + 1..];
  }

  lemma {:induction false} UnshadowedFromBatch(us: seq<Update>, k: nat) returns (i: nat)
    requires k < |Unshadowed(us)|
    ensures i < |us| && us[i] == Unshadowed(us)[k] && !Shadowed(us, i)
  {
    var r := Unshadowed(us[1..]);
    if !Shadowed(us, 0) && k == 0 {
      i := 0;
    } else {
      var j := UnshadowedFromBatch(us[1..], if Shadowed(us, 0) then k else k - 1);
      i := j + 1;
      ShadowedShift(us, i);
    }
  }

  lemma {:induction false} UnshadowedKeepsLast(us: seq<Update>, i: nat) returns (k: nat)
    requires i < |us|
    ensures k < |Unshadowed(us)| && SameTarget(us[i], Unshadowed(us)[k])
    ensures !Shadowed(us, i) ==> us[i] == Unshadowed(us)[k]
    decreases |us|
  {
    if i == 0 && !Shadowed(us, 0) {
      k := 0;
    } else {
      var j: nat := i;
      if i == 0 {
        j :| 0 < j < |us| && SameTarget(us[0], us[j]);
      } else if !Shadowed(us, i) {
        ShadowedShift(us, i);
      }
      var m := UnshadowedKeepsLast(us[1..], j - 1);
      k := if Shadowed(us, 0) then m else m + 1;
    }
  }

  lemma ShadowedShift(us: seq<Update>, i: nat)
    requires 0 < i < |us|
    ensures Shadowed(us[1..], i - 1) <==> Shadowed(us, i)
  {
    if Shadowed(us, i) {
      var m :| i < m < |us| && SameTarget(us[i], us[m]);
      assert us[1..][m - 1] == us[m];
    }
  }

  /** Every path and key of the batch survives coalescing exactly once, with its last value. */
  lemma {:induction false} UnshadowedOnce(us: seq<Update>, j: nat, k: nat)
    requires j < k < |Unshadowed(us)|
    ensures !SameTarget(Unshadowed(us)[j], Unshadowed(us)[k])
    decreases |us|
  {
    var u, r := Unshadowed(us), Unshadowed(us[1..]);
    if Shadowed(us, 0) {
      UnshadowedOnce(us[1..], j, k);
    } else if j > 0 {
      UnshadowedOnce(us[1..], j - 1, k - 1);
    } else {
      var i := UnshadowedFromBatch(us[1..], k - 1);
      assert us[i + 1] == u[k];
    }
  }

  // ---- Dropping shadowed writes changes nothing ----

  /** Every field an update writes is written again by the last update of the same path and key. */
  predicate Overwritten(w: World, us: seq<Update>) {
    forall i :: 0 <= i < |us| && Shadowed(us, i) ==>
      exists j :: i < j < |us| && SameTarget(us[i], us[j]) && FieldRefs(w, us[i]) <= FieldRefs(w, us[j])
  }

  lemma {:induction false} StoreForgets(w: World, a: map<string, string>, b: map<string, string>, k: string,
                                        us: seq<Update>, j: nat)
    requires a - {k} == b - {k} && j < |us| && StoreKey(w, us[j]) == k
    ensures RunStore(w, a, us) == RunStore(w, b, us)
    decreases |us|
  {
    var a1, b1 := a + StoreWrite(w, us[0]), b + StoreWrite(w, us[0]);
    assert forall x :: x != k ==> (x in a <==> x in a - {k}) && (x in b <==> x in b - {k});
    assert forall x :: x != k && x in a ==> a[x] == (a - {k})[x] && b[x] == (b - {k})[x];
    if j == 0 {
      assert a1 == b1;
    } else {
      assert a1 - {k} == b1 - {k};
      StoreForgets(w, a1, b1, k, us[1..], j - 1);
    }
  }

  lemma ForgetStep(a: map<FieldRef, string>, b: map<FieldRef, string>, refs: set<FieldRef>, m: map<FieldRef, string>)
    requires a - refs == b - refs
    ensures (a + m) - refs == (b + m) - refs
    ensures refs <= m.Keys ==> a + m == b + m
  {
    forall x | x !in refs ensures (x in a <==> x in b) && (x in a ==> a[x] == b[x]) {
      assert x in a <==> x in a - refs;
      assert x in b <==> x in b - refs;
      if x in a {
        assert a[x] == (a - refs)[x] && b[x] == (b - refs)[x];
      }
    }
  }

  lemma {:induction false} FieldsForget(w: World, a: map<FieldRef, string>, b: map<FieldRef, string>,
                                        refs: set<FieldRef>,
                                        us: seq<Update>, j: nat)
    requires a - refs == b - refs && j < |us| && refs <= FieldRefs(w, us[j])
    ensures RunFields(w, a, us) == RunFields(w, b, us)
    decreases |us|
  {
    hide FieldRefs;
    ForgetStep(a, b, refs, FieldWrite(w, us[0]));
    if j > 0 {
      FieldsForget(w, a + FieldWrite(w, us[0]), b + FieldWrite(w, us[0]), refs, us[1..], j - 1);
    }
  }

  lemma OverwrittenTail(w: World, us: seq<Update>)
    requires us != [] && Overwritten(w, us)
    ensures Overwritten(w, us[1..])
  {
    var rest := us[1..];
    forall i | 0 <= i < |rest| && Shadowed(rest, i)
      ensures exists j :: (
        i < j < |rest| && SameTarget(rest[i], rest[j]) && FieldRefs(w, rest[i]) <= FieldRefs(w, rest[j]))
    {
      var m :| i < m < |rest| && SameTarget(rest[i], rest[m]);
      assert us[m + 1] == rest[m] && us[i + 1] == rest[i] && Shadowed(us, i + 1);
      var j :| i + 1 < j < |us| && SameTarget(us[i + 1], us[j]) && FieldRefs(w, us[i + 1]) <= FieldRefs(w, us[j]);
      assert rest[j - 1] == us[j];
    }
  }

  lemma {:induction false} CoalescedStore(w: World, store: map<string, string>, us: seq<Update>)
    ensures RunStore(w, store, Unshadowed(us)) == RunStore(w, store, us)
    decreases |us|
  {
    if us != [] {
      var after, rest := store + StoreWrite(w, us[0]), us[1..];
      if Shadowed(us, 0) {
        var j :| 0 < j < |us| && SameTarget(us[0], us[j]);
        assert rest[j - 1] == us[j];
        assert store - {StoreKey(w, us[0])} == after - {StoreKey(w, us[0])};
        StoreForgets(w, store, after, StoreKey(w, us[0]), rest, j - 1);
        CoalescedStore(w, store, rest);
        assert Unshadowed(us) == Unshadowed(rest);
      } else {
        CoalescedStore(w, after, rest);
        assert Unshadowed(us)[1..] == Unshadowed(rest);
      }
    }
  }

  lemma OverwriterOf(w: World, us: seq<Update>) returns (j: nat)
    requires us != [] && Overwritten(w, us) && Shadowed(us, 0)
    ensures j < |us[1..]| && FieldRefs(w, us[0]) <= FieldRefs(w, us[1..][j])
  {
    var i :| 0 < i < |us| && SameTarget(us[0], us[i]) && FieldRefs(w, us[0]) <= FieldRefs(w, us[i]);
    j := i - 1;
  }

  lemma UnshadowedSplit(us: seq<Update>)
    requires us != []
    ensures Shadowed(us, 0) ==> Unshadowed(us) == Unshadowed(us[1..])
    ensures !Shadowed(us, 0) ==> Unshadowed(us)[0] == us[0] && Unshadowed(us)[1..] == Unshadowed(us[1..])
    ensures !Shadowed(us, 0) ==> Unshadowed(us) != []
  {
  }

  lemma {:induction false} CoalescedFields(w: World, fields: map<FieldRef, string>, us: seq<Update>)
    requires Overwritten(w, us)
    ensures RunFields(w, fields, Unshadowed(us)) == RunFields(w, fields, us)
    decreases |us|
  {
    hide FieldRefs, Overwritten, Shadowed;
    if us != [] {
      var m, rest := FieldWrite(w, us[0]), us[1..];
      OverwrittenTail(w, us);
      UnshadowedSplit(us);
      hide Unshadowed;
      if Shadowed(us, 0) {
        var j := OverwriterOf(w, us);
        assert fields - FieldRefs(w, us[0]) == (fields + m) - FieldRefs(w, us[0]);
        FieldsForget(w, fields, fields + m, FieldRefs(w, us[0]), rest, j);
        CoalescedFields(w, fields, rest);
      } else {
        CoalescedFields(w, fields + m, rest);
      }
    }
  }

  lemma {:induction false} CoalescedRefs(w: World, us: seq<Update>)
    requires Overwritten(w, us)
    ensures AllRefs(w, Unshadowed(us)) == AllRefs(w, us)
    decreases |us|
  {
    hide FieldRefs, Overwritten, Shadowed;
    if us != [] {
      OverwrittenTail(w, us);
      CoalescedRefs(w, us[1..]);
      UnshadowedSplit(us);
      if Shadowed(us, 0) {
        var j := OverwriterOf(w, us);
        AllRefsHas(w, us[1..], j);
      } else {
        hide Unshadowed;
      }
    }
  }

  lemma AllRefsHas(w: World, us: seq<Update>, j: nat)
    requires j < |us|
    ensures FieldRefs(w, us[j]) <= AllRefs(w, us)
  {
    hide FieldRefs;
    if j > 0 {
      AllRefsHas(w, us[1..], j - 1);
    }
  }

  // ---- The batch and the one-at-a-time run ----

  /** What set_binding_values leaves behind. */
  function Batch(w: World, s: State, us: seq<Update>): State {
    var last := Unshadowed(us);
    var fields := RunFields(w, s.fields, last);
    State(RunStore(w, s.store, last), fields,
          s.shown + ShowAll(w, Touched(w, AllRefs(w, last)), fields))
  }

  function Sequential(w: World, s: State, us: seq<Update>): State
    decreases |us|
  {
    if us == [] then s else Sequential(w, Batch(w, s, [us[0]]), us[1..])
  }

  function Shown(w: World, shown: map<Slot, map<FieldRef, string>>, refs: set<FieldRef>, fields: map<FieldRef, string>)
    : map<Slot, map<FieldRef, string>>
  {
    shown + ShowAll(w, Touched(w, refs), fields)
  }

  lemma SingleBatch(w: World, s: State, u: Update)
    ensures Batch(w, s, [u]) ==
            State(s.store + StoreWrite(w, u), s.fields + FieldWrite(w, u),
                  Shown(w, s.shown, FieldRefs(w, u), s.fields + FieldWrite(w, u)))
  {
    assert [u][1..] == [] && Unshadowed([u]) == [u];
    assert RunFields(w, s.fields, [u]) == s.fields + FieldWrite(w, u);
    assert RunStore(w, s.store, [u]) == s.store + StoreWrite(w, u);
    assert AllRefs(w, [u]) == FieldRefs(w, u);
  }

  /** A slot not reached by what an update writes shows the same before and after it. */
  lemma ShowStable(w: World, slot: Slot, fields: map<FieldRef, string>, u: Update)
    requires slot !in Touched(w, FieldRefs(w, u))
    ensures Show(w, slot, fields + FieldWrite(w, u)) == Show(w, slot, fields)
  {
    assert forall r :: r in FieldRefs(w, u) ==> slot !in Reach(w, r);
  }

  lemma {:induction false} ShowStableRun(w: World, slot: Slot, fields: map<FieldRef, string>, us: seq<Update>)
    requires slot !in Touched(w, AllRefs(w, us))
    ensures Show(w, slot, RunFields(w, fields, us)) == Show(w, slot, fields)
    decreases |us|
  {
    if us != [] {
      assert slot !in Touched(w, FieldRefs(w, us[0])) && slot !in Touched(w, AllRefs(w, us[1..])) by {
        TouchedUnion(w, FieldRefs(w, us[0]), AllRefs(w, us[1..]));
      }
      ShowStable(w, slot, fields, us[0]);
      ShowStableRun(w, slot, fields + FieldWrite(w, us[0]), us[1..]);
    }
  }

  lemma TouchedUnion(w: World, a: set<FieldRef>, b: set<FieldRef>)
    ensures Touched(w, a + b) == Touched(w, a) + Touched(w, b)
  {
  }

  lemma ShowTwice(w: World, shown: map<Slot, map<FieldRef, string>>, early: map<FieldRef, string>,
                  late: map<FieldRef, string>, a: set<Slot>, b: set<Slot>)
    requires forall s :: s in a && s !in b ==> Show(w, s, early) == Show(w, s, late)
    ensures shown + ShowAll(w, a, early) + ShowAll(w, b, late) == shown + ShowAll(w, a + b, late)
  {
    hide Show;
  }

  /** One more update in front: showing it at once and again at the end is showing it at the end. */
  lemma ShownStep(w: World, shown: map<Slot, map<FieldRef, string>>, fields: map<FieldRef, string>, u: Update,
                  rest: seq<Update>)
    ensures var f1 := fields + FieldWrite(w, u);
            var final := RunFields(w, f1, rest);
            Shown(w, Shown(w, shown, FieldRefs(w, u), f1), AllRefs(w, rest), final)
            == Shown(w, shown, FieldRefs(w, u) + AllRefs(w, rest), final)
  {
    hide FieldRefs, AllRefs, RunFields, Show, ShowAll, Touched, FieldWrite;
    var f1 := fields + FieldWrite(w, u);
    var final := RunFields(w, f1, rest);
    var a, b := Touched(w, FieldRefs(w, u)), Touched(w, AllRefs(w, rest));
    TouchedUnion(w, FieldRefs(w, u), AllRefs(w, rest));
    forall slot | slot in a && slot !in b ensures Show(w, slot, f1) == Show(w, slot, final) {
      ShowStableRun(w, slot, f1, rest);
    }
    ShowTwice(w, shown, f1, final, a, b);
  }

  /** Applying after every update or only once at the end shows the backend the same final values. */
  lemma {:induction false} SequentialIs(w: World, s: State, us: seq<Update>)
    ensures Sequential(w, s, us) ==
            State(RunStore(w, s.store, us), RunFields(w, s.fields, us),
                  Shown(w, s.shown, AllRefs(w, us), RunFields(w, s.fields, us)))
    decreases |us|
  {
    hide FieldRefs, Batch, Touched;
    if us == [] {
      assert Touched(w, {}) == {} by {
        NothingTouched(w);
      }
      assert Shown(w, s.shown, {}, s.fields) == s.shown;
    } else {
      SingleBatch(w, s, us[0]);
      SequentialIs(w, Batch(w, s, [us[0]]), us[1..]);
      ShownStep(w, s.shown, s.fields, us[0], us[1..]);
    }
  }

  lemma NothingTouched(w: World)
    ensures Touched(w, {}) == {}
  {
  }

  /** The batch leaves the store, the node records and the backend as the updates one at a time would. */
  lemma BatchEqualsSequential(w: World, s: State, us: seq<Update>)
    requires Overwritten(w, us)
    ensures Batch(w, s, us) == Sequential(w, s, us)
  {
    SequentialIs(w, s, us);
    CoalescedStore(w, s.store, us);
    CoalescedFields(w, s.fields, us);
    CoalescedRefs(w, us);
  }

  /** The value the last update that writes a field gives it. */
  function LastValue(w: World, us: seq<Update>, r: FieldRef): string
    requires r in AllRefs(w, us)
    decreases |us|
  {
    if r in AllRefs(w, us[1..]) then LastValue(w, us[1..], r) else us[0].value
  }

  lemma {:induction false} RunFieldsIs(w: World, fields: map<FieldRef, string>, us: seq<Update>)
    ensures RunFields(w, fields, us) == fields + map r | r in AllRefs(w, us) :: LastValue(w, us, r)
    decreases |us|
  {
    hide FieldRefs;
    if us != [] {
      RunFieldsIs(w, fields + FieldWrite(w, us[0]), us[1..]);
    }
  }

  predicate Writes(w: World, us: seq<Update>, i: nat, r: FieldRef)
    requires i < |us|
  {
    r in FieldRefs(w, us[i])
  }

  predicate LastWriter(w: World, us: seq<Update>, i: nat, r: FieldRef)
    requires i < |us|
  {
    Writes(w, us, i, r) && forall j :: i < j < |us| ==> !Writes(w, us, j, r)
  }

  predicate LastUnshadowedWriter(w: World, us: seq<Update>, i: nat, r: FieldRef)
    requires i < |us|
  {
    Writes(w, us, i, r) && !Shadowed(us, i) && forall j :: i < j < |us| && Writes(w, us, j, r) ==> Shadowed(us, j)
  }

  /**
   * No field loses its value: where the last update that writes a field is shadowed, some unshadowed update writes the
   * field too, and the last of these gives it the same value.
   */
  ghost predicate FinalValuesKept(w: World, us: seq<Update>) {
    forall i, r :: 0 <= i < |us| && LastWriter(w, us, i, r) && Shadowed(us, i) ==>
      exists k :: 0 <= k < |us| && LastUnshadowedWriter(w, us, k, r) && us[k].value == us[i].value
  }

  lemma {:induction false} LastWriterIs(w: World, us: seq<Update>, r: FieldRef) returns (i: nat)
    requires r in AllRefs(w, us)
    ensures i < |us| && LastWriter(w, us, i, r) && LastValue(w, us, r) == us[i].value
    decreases |us|
  {
    hide FieldRefs;
    var rest := us[1..];
    if r in AllRefs(w, rest) {
      var j := LastWriterIs(w, rest, r);
      i := j + 1;
      forall k | i < k < |us| ensures !Writes(w, us, k, r) {
        assert us[k] == rest[k - 1] && !Writes(w, rest, k - 1, r);
      }
    } else {
      i := 0;
      forall k | 0 < k < |us| ensures !Writes(w, us, k, r) {
        AllRefsHas(w, rest, k - 1);
        assert rest[k - 1] == us[k];
      }
    }
  }

  lemma {:induction false} UnshadowedWrites(w: World, us: seq<Update>, i: nat, r: FieldRef)
    requires i < |us| && Writes(w, us, i, r) && !Shadowed(us, i)
    ensures r in AllRefs(w, Unshadowed(us))
  {
    hide FieldRefs, Shadowed;
    var k := UnshadowedKeepsLast(us, i);
    AllRefsHas(w, Unshadowed(us), k);
  }

  lemma {:induction false} LastUnshadowedIs(w: World, us: seq<Update>, r: FieldRef) returns (i: nat)
    requires r in AllRefs(w, Unshadowed(us))
    ensures i < |us| && LastUnshadowedWriter(w, us, i, r) && LastValue(w, Unshadowed(us), r) == us[i].value
    decreases |us|
  {
    hide FieldRefs, Shadowed;
    UnshadowedSplit(us);
    var rest := us[1..];
    if r in AllRefs(w, Unshadowed(rest)) {
      var j := LastUnshadowedIs(w, rest, r);
      i := j + 1;
      ShadowedShift(us, i);
      forall k | i < k < |us| && Writes(w, us, k, r) ensures Shadowed(us, k) {
        ShadowedShift(us, k);
        assert Writes(w, rest, k - 1, r);
      }
    } else {
      i := 0;
      hide Unshadowed;
      forall k | 0 < k < |us| && Writes(w, us, k, r) ensures Shadowed(us, k) {
        ShadowedShift(us, k);
        assert Writes(w, rest, k - 1, r);
        if !Shadowed(rest, k - 1) {
          UnshadowedWrites(w, rest, k - 1, r);
        }
      }
    }
  }

  /** The fields the coalesced batch writes, and the values they end on, are those of the whole batch. */
  predicate SameFinalValues(w: World, us: seq<Update>) {
    && AllRefs(w, Unshadowed(us)) == AllRefs(w, us)
    && forall r :: r in AllRefs(w, us) ==> LastValue(w, us, r) == LastValue(w, Unshadowed(us), r)
  }

  lemma KeptIsSame(w: World, us: seq<Update>)
    ensures FinalValuesKept(w, us) <==> SameFinalValues(w, us)
  {
    hide AllRefs, LastValue, Unshadowed, Shadowed, FieldRefs;
    if FinalValuesKept(w, us) {
      forall r ensures r in AllRefs(w, Unshadowed(us)) <==> r in AllRefs(w, us)
        ensures r in AllRefs(w, us) ==>
          r in AllRefs(w, Unshadowed(us)) && LastValue(w, us, r) == LastValue(w, Unshadowed(us), r)
      {
        KeptAt(w, us, r);
      }
    }
    if SameFinalValues(w, us) {
      forall i, r | 0 <= i < |us| && LastWriter(w, us, i, r) && Shadowed(us, i)
        ensures exists k :: 0 <= k < |us| && LastUnshadowedWriter(w, us, k, r) && us[k].value == us[i].value
      {
        AllRefsHas(w, us, i);
        var j := LastWriterIs(w, us, r);
        var k := LastUnshadowedIs(w, us, r);
        assert i == j;
      }
    }
  }

  lemma KeptAt(w: World, us: seq<Update>, r: FieldRef)
    requires FinalValuesKept(w, us)
    ensures r in AllRefs(w, Unshadowed(us)) <==> r in AllRefs(w, us)
    ensures r in AllRefs(w, us) ==>
      r in AllRefs(w, Unshadowed(us)) && LastValue(w, us, r) == LastValue(w, Unshadowed(us), r)
  {
    hide AllRefs, LastValue, Unshadowed, Shadowed, FieldRefs;
    if r in AllRefs(w, Unshadowed(us)) {
      var k := LastUnshadowedIs(w, us, r);
      AllRefsHas(w, us, k);
    }
    if r in AllRefs(w, us) {
      var i := LastWriterIs(w, us, r);
      var kept := i;
      if Shadowed(us, i) {
        kept :| 0 <= kept < |us| && LastUnshadowedWriter(w, us, kept, r) && us[kept].value == us[i].value;
      }
      UnshadowedWrites(w, us, kept, r);
      var k := LastUnshadowedIs(w, us, r);
      OneLastWriter(w, us, kept, k, r);
    }
  }

  lemma OneLastWriter(w: World, us: seq<Update>, i: nat, k: nat, r: FieldRef)
    requires i < |us| && k < |us| && LastUnshadowedWriter(w, us, k, r)
    requires LastUnshadowedWriter(w, us, i, r)
    ensures i == k
  {
    hide Shadowed, FieldRefs;
  }

  lemma FinalValuesKeptIs(w: World, fields: map<FieldRef, string>, us: seq<Update>)
    ensures FinalValuesKept(w, us) ==> RunFields(w, fields, Unshadowed(us)) == RunFields(w, fields, us)
    ensures FinalValuesKept(w, us) ==> AllRefs(w, Unshadowed(us)) == AllRefs(w, us)
    ensures RunFields(w, map[], Unshadowed(us)) == RunFields(w, map[], us) ==> FinalValuesKept(w, us)
  {
    hide FinalValuesKept, AllRefs, LastValue, RunFields, Unshadowed;
    KeptIsSame(w, us);
    var last := Unshadowed(us);
    RunFieldsIs(w, fields, us);
    RunFieldsIs(w, fields, last);
    RunFieldsIs(w, map[], us);
    RunFieldsIs(w, map[], last);
    var all, kept := RunFields(w, map[], us), RunFields(w, map[], last);
    assert all.Keys == AllRefs(w, us) && kept.Keys == AllRefs(w, last);
    assert forall r :: r in AllRefs(w, us) ==> all[r] == LastValue(w, us, r);
    assert forall r :: r in AllRefs(w, last) ==> kept[r] == LastValue(w, last, r);
  }

  /** The batch is the one-at-a-time run, from every state, exactly when dropping shadowed updates loses no value. */
  lemma BatchEqualsSequentialExactly(w: World, us: seq<Update>)
    ensures (forall s: State :: Batch(w, s, us) == Sequential(w, s, us)) <==> FinalValuesKept(w, us)
  {
    hide FinalValuesKept, AllRefs, RunFields, RunStore, Unshadowed, Touched, ShowAll;
    if FinalValuesKept(w, us) {
      forall s: State ensures Batch(w, s, us) == Sequential(w, s, us) {
        SequentialIs(w, s, us);
        CoalescedStore(w, s.store, us);
        FinalValuesKeptIs(w, s.fields, us);
      }
    } else {
      var s := State(map[], map[], map[]);
      SequentialIs(w, s, us);
      FinalValuesKeptIs(w, map[], us);
      assert Batch(w, s, us) != Sequential(w, s, us);
    }
  }

  /** Store contents agree even when some value is rejected. */
  lemma BatchStoreEqualsSequential(w: World, s: State, us: seq<Update>)
    ensures Batch(w, s, us).store == Sequential(w, s, us).store
  {
    SequentialIs(w, s, us);
    CoalescedStore(w, s.store, us);
  }

  /** Every bound field accepts every value of the batch. */
  ghost predicate AllAccepted(w: World, us: seq<Update>) {
    forall i, uid, b :: 0 <= i < |us| && TargetUid(w, us[i]) == Some(uid) && 0 <= b < |w.nodes[uid].bindings|
                        && w.nodes[uid].bindings[b].field.Some?
      ==> w.accepts(w.nodes[uid].bindings[b].field.value, us[i].value)
  }

  lemma AcceptedIsOverwritten(w: World, us: seq<Update>)
    requires AllAccepted(w, us)
    ensures Overwritten(w, us)
  {
    forall i | 0 <= i < |us| && Shadowed(us, i)
      ensures exists j :: i < j < |us| && SameTarget(us[i], us[j]) && FieldRefs(w, us[i]) <= FieldRefs(w, us[j])
    {
      var j :| i < j < |us| && SameTarget(us[i], us[j]);
      assert FieldRefs(w, us[i]) <= FieldRefs(w, us[j]);
    }
  }

  /** A later value its fields reject still shadows an accepted one: the batch loses the accepted value. */
  lemma LostUpdate(w: World, s: State, a: Update, b: Update)
    requires SameTarget(a, b) && FieldRefs(w, b) == {}
    ensures Batch(w, s, [a, b]).fields == s.fields
    ensures Sequential(w, s, [a, b]).fields == s.fields + FieldWrite(w, a)
  {
    var us := [a, b];
    SequentialIs(w, s, us);
    hide FieldRefs, Touched, Show, Reach, StoreWrite, TargetUid, AllRefs, RunStore, Shown;
    assert us[1..] == [b] && [b][1..] == [] && SameTarget(us[0], us[1]) && Shadowed(us, 0);
    UnshadowedSplit(us);
    assert Unshadowed([b]) == [b];
    assert FieldWrite(w, b) == map[];
    assert RunFields(w, s.fields, [b]) == s.fields;
    assert RunFields(w, s.fields, us) == RunFields(w, s.fields + FieldWrite(w, a), [b]);
    assert RunFields(w, s.fields + FieldWrite(w, a), [b]) == s.fields + FieldWrite(w, a);
  }

  /** Such a pair exists: a field that accepts only "1", set to "1" and then to "x" in one batch. */
  lemma RejectedFinalValue()
    ensures var w := World(map["/s" := 1], map[1 := NodeInfo(false, [Binding(Some("k"), Some(7))])],
                           (f: Field) => Target(PropsDomain, {0}), (f: Field, v: string) => v == "1", 1);
            var a, b := Update("/s", "k", "1"), Update("/s", "k", "x");
            SameTarget(a, b) && FieldRefs(w, a) == {FieldRef(1, 7)} && FieldRefs(w, b) == {}
  {
    var w := World(map["/s" := 1], map[1 := NodeInfo(false, [Binding(Some("k"), Some(7))])],
                   (f: Field) => Target(PropsDomain, {0}), (f: Field, v: string) => v == "1", 1);
    assert QueryPath("/s") == "/s";
    assert Matches(w, w.nodes[1].bindings[0], Update("/s", "k", "1"));
  }

  // ---- Announcements ----

  /** Explicit subscribers hear of an update only when the store still holds its value. */
  function Announcements(w: World, store: map<string, string>, last: seq<Update>): seq<(string, string)> {
    if last == [] then []
    else
      var k := StoreKey(w, last[0]);
      (if k in store && store[k] == last[0].value then [(k, last[0].value)] else [])
      + Announcements(w, store, last[1..])
  }

  lemma AnnouncementsFrom(w: World, store: map<string, string>, last: seq<Update>, k: nat)
    requires k < |Announcements(w, store, last)|
    ensures var a := Announcements(w, store, last)[k];
            && a.0 in store && store[a.0] == a.1
            && exists i :: 0 <= i < |last| && a == (StoreKey(w, last[i]), last[i].value)
  {
    var key := StoreKey(w, last[0]);
    var head := if key in store && store[key] == last[0].value then 1 else 0;
    if head <= k {
      AnnouncementsFrom(w, store, last[1..], k - head);
      var i :| 0 <= i < |last[1..]| &&
               Announcements(w, store, last)[k] == (StoreKey(w, last[1..][i]), last[1..][i].value);
      assert last[i + 1] == last[1..][i];
    }
  }

  /** What is announced is always the value the whole batch ends with, as a one-at-a-time run would leave it. */
  lemma AnnouncedIsFinal(w: World, s: State, us: seq<Update>, k: nat)
    requires k < |Announcements(w, Batch(w, s, us).store, Unshadowed(us))|
    ensures var a := Announcements(w, Batch(w, s, us).store, Unshadowed(us))[k];
            a.0 in Sequential(w, s, us).store && Sequential(w, s, us).store[a.0] == a.1
  {
    AnnouncementsFrom(w, Batch(w, s, us).store, Unshadowed(us), k);
    BatchStoreEqualsSequential(w, s, us);
  }

  predicate MarkFreePaths(us: seq<Update>) {
    forall i :: 0 <= i < |us| ==> Keys.MarkFree(us[i].path)
  }

  /** Every update of a list with its scoped key. */
  function Named(w: World, us: seq<Update>): seq<(string, string)> {
    if us == [] then [] else [(StoreKey(w, us[0]), us[0].value)] + Named(w, us[1..])
  }

  /** The updates that are announced, in order. */
  function AnnouncedOf(w: World, store: map<string, string>, last: seq<Update>): seq<Update> {
    if last == [] then []
    else
      var k := StoreKey(w, last[0]);
      (if k in store && store[k] == last[0].value then [last[0]] else []) + AnnouncedOf(w, store, last[1..])
  }

  lemma {:induction false} AnnouncementsAre(w: World, store: map<string, string>, last: seq<Update>)
    ensures Announcements(w, store, last) == Named(w, AnnouncedOf(w, store, last))
    decreases |last|
  {
    if last != [] {
      AnnouncementsAre(w, store, last[1..]);
      var k, rest := StoreKey(w, last[0]), AnnouncedOf(w, store, last[1..]);
      if k in store && store[k] == last[0].value {
        assert ([last[0]] + rest)[1..] == rest;
      } else {
        assert [] + rest == rest;
      }
    }
  }

  lemma {:induction false} AnnouncedFrom(w: World, store: map<string, string>, last: seq<Update>, k: nat)
    returns (i: nat)
    requires k < |AnnouncedOf(w, store, last)|
    ensures i < |last| && last[i] == AnnouncedOf(w, store, last)[k] && k <= i
    decreases |last|
  {
    var head := |AnnouncedOf(w, store, last)| - |AnnouncedOf(w, store, last[1..])|;
    if k < head {
      i := 0;
    } else {
      var j := AnnouncedFrom(w, store, last[1..], k - head);
      i := j + 1;
    }
  }

  lemma {:induction false} AnnouncedApart(w: World, store: map<string, string>, last: seq<Update>, j: nat, k: nat)
    requires (forall x, y :: 0 <= x < y < |last| ==> !SameTarget(last[x], last[y]))
    requires j < k < |AnnouncedOf(w, store, last)|
    ensures !SameTarget(AnnouncedOf(w, store, last)[j], AnnouncedOf(w, store, last)[k])
    decreases |last|
  {
    hide StoreKey;
    var all, rest := AnnouncedOf(w, store, last), AnnouncedOf(w, store, last[1..]);
    var head := |all| - |rest|;
    assert forall x :: 0 <= x < |last[1..]| ==> last[1..][x] == last[x + 1];
    if j >= head {
      AnnouncedApart(w, store, last[1..], j - head, k - head);
    } else {
      var i := AnnouncedFrom(w, store, last[1..], k - 1);
      assert all[k] == last[i + 1] && all[j] == last[0];
    }
  }

  /** Each path and key is announced at most once. */
  lemma AnnouncedOnce(w: World, s: State, us: seq<Update>, j: nat, k: nat)
    requires j < k < |AnnouncedOf(w, Batch(w, s, us).store, Unshadowed(us))|
    ensures var a := AnnouncedOf(w, Batch(w, s, us).store, Unshadowed(us));
            && !SameTarget(a[j], a[k]) && Announcements(w, Batch(w, s, us).store, Unshadowed(us)) == Named(w, a)
  {
    hide AnnouncedOf, Batch;
    var last := Unshadowed(us);
    AnnouncementsAre(w, Batch(w, s, us).store, last);
    forall i, m | 0 <= i < m < |last| ensures !SameTarget(last[i], last[m]) {
      UnshadowedOnce(us, i, m);
    }
    AnnouncedApart(w, Batch(w, s, us).store, last, j, k);
  }

  lemma {:induction false} AnnouncesAll(w: World, store: map<string, string>, last: seq<Update>)
    requires forall i :: 0 <= i < |last| ==>
      StoreKey(w, last[i]) in store && store[StoreKey(w, last[i])] == last[i].value
    ensures Announcements(w, store, last) == Named(w, last)
    decreases |last|
  {
    if last != [] {
      assert forall i :: 0 <= i < |last[1..]| ==> last[1..][i] == last[i + 1];
      AnnouncesAll(w, store, last[1..]);
    }
  }

  lemma {:induction false} StoreEnds(w: World, store: map<string, string>, us: seq<Update>, i: nat)
    requires i < |us| && forall j :: i < j < |us| ==> StoreKey(w, us[j]) != StoreKey(w, us[i])
    ensures StoreKey(w, us[i]) in RunStore(w, store, us) && RunStore(w, store, us)[StoreKey(w, us[i])] == us[i].value
    decreases |us|
  {
    hide StoreKey;
    var after, rest := store + StoreWrite(w, us[0]), us[1..];
    if i > 0 {
      StoreEnds(w, after, rest, i - 1);
    } else {
      assert forall j :: 0 <= j < |rest| ==> rest[j] == us[j + 1];
      StoreKeeps(w, after, rest, StoreKey(w, us[0]));
    }
  }

  lemma {:induction false} StoreKeeps(w: World, store: map<string, string>, us: seq<Update>, k: string)
    requires k in store && forall j :: 0 <= j < |us| ==> StoreKey(w, us[j]) != k
    ensures k in RunStore(w, store, us) && RunStore(w, store, us)[k] == store[k]
    decreases |us|
  {
    hide StoreKey;
    if us != [] {
      assert forall j :: 0 <= j < |us[1..]| ==> us[1..][j] == us[j + 1];
      StoreKeeps(w, store + StoreWrite(w, us[0]), us[1..], k);
    }
  }

  /** No path and key is left out: as long as paths are free of the key mark, each is announced, with its last value. */
  lemma AnnouncedAll(w: World, s: State, us: seq<Update>)
    requires MarkFreePaths(us)
    ensures Announcements(w, Batch(w, s, us).store, Unshadowed(us)) == Named(w, Unshadowed(us))
  {
    hide Announcements, RunFields, Touched, Unshadowed, StoreKey;
    var last := Unshadowed(us);
    forall i | 0 <= i < |last|
      ensures StoreKey(w, last[i]) in Batch(w, s, us).store &&
              Batch(w, s, us).store[StoreKey(w, last[i])] == last[i].value
    {
      forall j | i < j < |last| ensures StoreKey(w, last[j]) != StoreKey(w, last[i]) {
        UnshadowedOnce(us, i, j);
        var m := UnshadowedFromBatch(us, i);
        var n := UnshadowedFromBatch(us, j);
        KeysDiffer(w, last[i], last[j]);
      }
      StoreEnds(w, s.store, last, i);
    }
    AnnouncesAll(w, Batch(w, s, us).store, last);
  }

  lemma KeysDiffer(w: World, a: Update, b: Update)
    requires Keys.MarkFree(a.path) && Keys.MarkFree(b.path) && !SameTarget(a, b)
    ensures StoreKey(w, a) != StoreKey(w, b)
  {
    Keys.ScopedKeyInjective(w.document, a.path, a.key, w.document, b.path, b.key);
  }

  // ---- What a batch means, in terms of paths, keys and bindings ----

  /** No later update of the batch has the same path and key. */
  predicate Live(us: seq<Update>, i: nat)
    requires i < |us|
  {
    forall j :: i < j < |us| ==> us[j].path != us[i].path || us[j].key != us[i].key
  }

  predicate AddressedTo(w: World, u: Update, uid: Uid) {
    var query := QueryPath(u.path);
    query != "/" && query in w.paths && w.paths[query] == uid && uid in w.nodes
  }

  /** A binding of the node carries this key and resolves to this field. */
  predicate Bound(w: World, uid: Uid, key: string, field: Field)
    requires uid in w.nodes
  {
    var bindings := w.nodes[uid].bindings;
    exists b :: 0 <= b < |bindings| && bindings[b].key == Some(key) && bindings[b].field == Some(field)
  }

  /** The update is addressed to the field's node, a binding ties its key to the field, the field accepts its value. */
  predicate Sets(w: World, u: Update, r: FieldRef) {
    AddressedTo(w, u, r.uid) && Bound(w, r.uid, u.key, r.field) && w.accepts(r.field, u.value)
  }

  /** The last live update that sets the field. */
  predicate LastSetter(w: World, us: seq<Update>, i: nat, r: FieldRef)
    requires i < |us|
  {
    Live(us, i) && Sets(w, us[i], r) && forall j :: i < j < |us| && Live(us, j) ==> !Sets(w, us[j], r)
  }

  predicate IsSet(w: World, us: seq<Update>, r: FieldRef) {
    exists i :: 0 <= i < |us| && Live(us, i) && Sets(w, us[i], r)
  }

  /** Fields that are set hold the value of their last setter, every other field is as before. */
  ghost predicate FieldsMean(w: World, us: seq<Update>, before: map<FieldRef, string>, after: map<FieldRef, string>) {
    && (forall i, r :: 0 <= i < |us| && LastSetter(w, us, i, r) ==> r in after && after[r] == us[i].value)
    && (forall r :: !IsSet(w, us, r) ==> (r in after <==> r in before) && (r in after ==> after[r] == before[r]))
  }

  predicate Names(w: World, u: Update, k: string) {
    k == Keys.ScopedKey(w.document, u.path, u.key)
  }

  predicate LastNames(w: World, us: seq<Update>, i: nat, k: string)
    requires i < |us|
  {
    Names(w, us[i], k) && forall j :: i < j < |us| ==> !Names(w, us[j], k)
  }

  predicate Unnamed(w: World, us: seq<Update>, k: string) {
    forall i :: 0 <= i < |us| ==> !Names(w, us[i], k)
  }

  /** Store keys that the batch names hold the value of the last update naming them, every other key is as before. */
  ghost predicate StoreMeans(w: World, us: seq<Update>, before: map<string, string>, after: map<string, string>) {
    && (forall i, k :: 0 <= i < |us| && LastNames(w, us, i, k) ==> k in after && after[k] == us[i].value)
    && (forall k :: Unnamed(w, us, k) ==> (k in after <==> k in before) && (k in after ==> after[k] == before[k]))
  }

  predicate InTarget(t: Target, c: Channel) {
    match c
    case Props(bit) => t.domain == PropsDomain && bit in t.bits
    case Style(bit) => t.domain == StyleDomain && bit in t.bits
    case Layout(bit) => t.domain == LayoutDomain && bit in t.bits
    case Placement(bit) => t.domain == PlacementDomain && bit in t.bits
  }

  /** Applying the field's target sends this mask bit, directly or by one of the two couplings. */
  predicate Sends(w: World, r: FieldRef, c: Channel) {
    var t := w.targets(r.field);
    || InTarget(t, c)
    || (c == TRANSFORM && InTarget(t, SIZE))
    || (c == SIZE && r.uid in w.nodes && w.nodes[r.uid].image && InTarget(t, IMAGE_SOURCE))
  }

  ghost predicate Received(w: World, us: seq<Update>, slot: Slot) {
    exists field: Field :: IsSet(w, us, FieldRef(slot.uid, field)) && Sends(w, FieldRef(slot.uid, field), slot.channel)
  }

  predicate Visible(w: World, slot: Slot, r: FieldRef) {
    r.uid == slot.uid && Sends(w, r, slot.channel)
  }

  /** The backend has the final values of everything a field that was set sends, and nothing else was sent. */
  ghost predicate ShownMeans(w: World, us: seq<Update>, before: map<Slot, map<FieldRef, string>>,
                             after: map<Slot, map<FieldRef, string>>, fields: map<FieldRef, string>)
  {
    && (forall slot :: Received(w, us, slot) ==>
          && slot in after
          && forall r :: (r in after[slot] <==> r in fields && Visible(w, slot, r))
                         && (r in after[slot] ==> after[slot][r] == fields[r]))
    && (forall slot :: !Received(w, us, slot) ==>
          (slot in after <==> slot in before) && (slot in after ==> after[slot] == before[slot]))
  }

  /** The live updates among the first `n` whose value the store still holds, each with its key, in order. */
  function Heard(w: World, store: map<string, string>, us: seq<Update>, n: nat): seq<(string, string)>
    requires n <= |us|
  {
    if n == 0 then []
    else
      var u := us[n - 1];
      var k := Keys.ScopedKey(w.document, u.path, u.key);
      Heard(w, store, us, n - 1)
      + if Live(us, n - 1) && k in store && store[k] == u.value then [(k, u.value)] else []
  }

  /** One update changes exactly the fields it sets. */
  ghost predicate WrittenBy(w: World, u: Update, before: map<FieldRef, string>, after: map<FieldRef, string>) {
    forall r :: if Sets(w, u, r) then r in after && after[r] == u.value
                else (r in after <==> r in before) && (r in after ==> after[r] == before[r])
  }

  lemma WriteMeans(w: World, u: Update, fields: map<FieldRef, string>)
    ensures WrittenBy(w, u, fields, fields + FieldWrite(w, u))
  {
    hide Sets, FieldRefs;
    forall r ensures Sets(w, u, r) <==> r in FieldRefs(w, u) {
      SetsIs(w, [u], 0, r);
    }
  }

  lemma LiveIs(us: seq<Update>, i: nat)
    requires i < |us|
    ensures Live(us, i) <==> !Shadowed(us, i)
  {
  }

  lemma SetsIs(w: World, us: seq<Update>, i: nat, r: FieldRef)
    requires i < |us|
    ensures Sets(w, us[i], r) <==> Writes(w, us, i, r)
  {
    hide QueryPath;
  }

  lemma LastSetterIs(w: World, us: seq<Update>, i: nat, r: FieldRef)
    requires i < |us|
    ensures LastSetter(w, us, i, r) <==> LastUnshadowedWriter(w, us, i, r)
  {
    hide Live, Shadowed, Sets, Writes;
    forall j | 0 <= j < |us| ensures Live(us, j) <==> !Shadowed(us, j)
      ensures Sets(w, us[j], r) <==> Writes(w, us, j, r)
    {
      LiveIs(us, j);
      SetsIs(w, us, j, r);
    }
  }

  lemma IsSetIs(w: World, us: seq<Update>, r: FieldRef)
    ensures IsSet(w, us, r) <==> r in AllRefs(w, Unshadowed(us))
  {
    hide Live, Shadowed, Sets, Writes, AllRefs, Unshadowed;
    if r in AllRefs(w, Unshadowed(us)) {
      var i := LastUnshadowedIs(w, us, r);
      LiveIs(us, i);
      SetsIs(w, us, i, r);
    }
    if i :| 0 <= i < |us| && Live(us, i) && Sets(w, us[i], r) {
      LiveIs(us, i);
      SetsIs(w, us, i, r);
      UnshadowedWrites(w, us, i, r);
    }
  }

  lemma FieldsMeanBatch(w: World, s: State, us: seq<Update>)
    ensures FieldsMean(w, us, s.fields, Batch(w, s, us).fields)
  {
    hide AllRefs, Unshadowed, LastValue, RunFields, RunStore, Touched, ShowAll, LastUnshadowedWriter, Live, Sets;
    var last, after := Unshadowed(us), Batch(w, s, us).fields;
    RunFieldsIs(w, s.fields, last);
    forall i, r | 0 <= i < |us| && LastSetter(w, us, i, r) ensures r in after && after[r] == us[i].value {
      LastSetterIs(w, us, i, r);
      assert IsSet(w, us, r) by {
        assert Live(us, i) && Sets(w, us[i], r);
      }
      IsSetIs(w, us, r);
      var k := LastUnshadowedIs(w, us, r);
      OneLastWriter(w, us, i, k, r);
    }
    forall r | !IsSet(w, us, r)
      ensures (r in after <==> r in s.fields) && (r in after ==> after[r] == s.fields[r])
    {
      IsSetIs(w, us, r);
    }
  }

  lemma StoreMeansRun(w: World, store: map<string, string>, us: seq<Update>)
    ensures StoreMeans(w, us, store, RunStore(w, store, us))
  {
    hide LastNames, Unnamed, RunStore;
    forall i, k | 0 <= i < |us| && LastNames(w, us, i, k)
      ensures k in RunStore(w, store, us) && RunStore(w, store, us)[k] == us[i].value
    {
      NamedLast(w, store, us, i, k);
    }
    forall k | Unnamed(w, us, k)
      ensures (k in RunStore(w, store, us) <==> k in store)
      ensures k in store ==> RunStore(w, store, us)[k] == store[k]
    {
      NeverNamed(w, store, us, k);
    }
  }

  lemma NamedLast(w: World, store: map<string, string>, us: seq<Update>, i: nat, k: string)
    requires i < |us| && LastNames(w, us, i, k)
    ensures k in RunStore(w, store, us) && RunStore(w, store, us)[k] == us[i].value
  {
    hide StoreKey, Names, RunStore;
    forall j | i <= j < |us| ensures StoreKey(w, us[j]) == k <==> j == i {
      NamesIs(w, us[j], k);
    }
    StoreEnds(w, store, us, i);
  }

  lemma NeverNamed(w: World, store: map<string, string>, us: seq<Update>, k: string)
    requires Unnamed(w, us, k)
    ensures (k in RunStore(w, store, us) <==> k in store) && (k in store ==> RunStore(w, store, us)[k] == store[k])
  {
    hide StoreKey, Names, RunStore;
    forall i | 0 <= i < |us| ensures StoreKey(w, us[i]) != k {
      NamesIs(w, us[i], k);
    }
    StoreLeaves(w, store, us, k);
  }

  lemma NamesIs(w: World, u: Update, k: string)
    ensures Names(w, u, k) <==> StoreKey(w, u) == k
  {
  }

  lemma {:induction false} StoreLeaves(w: World, store: map<string, string>, us: seq<Update>, k: string)
    requires forall j :: 0 <= j < |us| ==> StoreKey(w, us[j]) != k
    ensures k in RunStore(w, store, us) <==> k in store
    ensures k in store ==> RunStore(w, store, us)[k] == store[k]
    decreases |us|
  {
    hide StoreKey;
    if us != [] {
      assert forall j :: 0 <= j < |us[1..]| ==> us[1..][j] == us[j + 1];
      StoreLeaves(w, store + StoreWrite(w, us[0]), us[1..], k);
    }
  }

  lemma SendsIs(w: World, r: FieldRef, slot: Slot)
    ensures slot in Reach(w, r) <==> r.uid == slot.uid && Sends(w, r, slot.channel)
  {
    var t := w.targets(r.field);
    forall c ensures c in TargetChannels(t) <==> InTarget(t, c) {
    }
    hide TargetChannels, InTarget;
    assert slot == Slot(slot.uid, slot.channel);
  }

  lemma ShownMeansBatch(w: World, s: State, us: seq<Update>)
    ensures ShownMeans(w, us, s.shown, Batch(w, s, us).shown, Batch(w, s, us).fields)
  {
    hide IsSet, Sends, AllRefs, Unshadowed, RunFields, RunStore, Reach;
    var refs, b := AllRefs(w, Unshadowed(us)), Batch(w, s, us);
    forall slot ensures Received(w, us, slot) <==> slot in Touched(w, refs)
    {
      if slot in Touched(w, refs) {
        var r :| r in refs && slot in Reach(w, r);
        SendsIs(w, r, slot);
        IsSetIs(w, us, r);
        assert r == FieldRef(slot.uid, r.field);
      }
      if field: Field :| IsSet(w, us, FieldRef(slot.uid, field)) && Sends(w, FieldRef(slot.uid, field), slot.channel) {
        SendsIs(w, FieldRef(slot.uid, field), slot);
        IsSetIs(w, us, FieldRef(slot.uid, field));
      }
    }
    hide Touched, Received;
    forall slot, r ensures r in Show(w, slot, b.fields) <==> r in b.fields && Visible(w, slot, r) {
      SendsIs(w, r, slot);
    }
  }

  lemma {:induction false} HeardIs(w: World, store: map<string, string>, us: seq<Update>, n: nat)
    requires n <= |us|
    ensures Heard(w, store, us, n) + Announcements(w, store, Unshadowed(us[n..]))
            == Heard(w, store, us, 0) + Announcements(w, store, Unshadowed(us[0..]))
  {
    hide Unshadowed, Announcements, Live, Shadowed;
    if n > 0 {
      HeardIs(w, store, us, n - 1);
      AnnounceStep(w, store, us, n - 1);
      LiveIs(us, n - 1);
    }
  }

  /** All of a batch's effects, stated by paths, keys, bindings and targets alone. */
  lemma BatchMeans(w: World, s: State, us: seq<Update>)
    ensures var b := Batch(w, s, us);
            && StoreMeans(w, us, s.store, b.store)
            && FieldsMean(w, us, s.fields, b.fields)
            && ShownMeans(w, us, s.shown, b.shown, b.fields)
  {
    hide StoreMeans, FieldsMean, ShownMeans, RunFields, RunStore, Touched, Unshadowed;
    CoalescedStore(w, s.store, us);
    StoreMeansRun(w, s.store, us);
    FieldsMeanBatch(w, s, us);
    ShownMeansBatch(w, s, us);
  }

  lemma AnnouncementsMean(w: World, store: map<string, string>, us: seq<Update>)
    ensures Announcements(w, store, Unshadowed(us)) == Heard(w, store, us, |us|)
  {
    hide Unshadowed, Announcements;
    HeardIs(w, store, us, |us|);
    assert us[0..] == us;
    NothingLeft(w, store, us);
    assert [] + Announcements(w, store, Unshadowed(us)) == Announcements(w, store, Unshadowed(us));
    assert Heard(w, store, us, |us|) + [] == Heard(w, store, us, |us|);
  }

  // ---- The imperative pipeline ----

  /** Mask bits that the written fields of one node ask for. */
  function ChannelsFor(w: World, refs: set<FieldRef>, uid: Uid): set<Channel> {
    set r, c | r in refs && r.uid == uid && c in TargetChannels(w.targets(r.field)) :: c
  }

  function DirtyUids(dirty: seq<(Uid, Masks)>): set<Uid> {
    set i | 0 <= i < |dirty| :: dirty[i].0
  }

  function UidsOf(refs: set<FieldRef>): set<Uid> {
    set r | r in refs :: r.uid
  }

  predicate OncePerNode(dirty: seq<(Uid, Masks)>) {
    forall i, j :: 0 <= i < j < |dirty| ==> dirty[i].0 != dirty[j].0
  }

  predicate MaskIs(w: World, d: (Uid, Masks), refs: set<FieldRef>) {
    ChannelsOf(d.1) == ChannelsFor(w, refs, d.0)
  }

  /** One dirty entry per written node and no other, holding the union of the masks of its written fields. */
  predicate DirtyOk(w: World, dirty: seq<(Uid, Masks)>, refs: set<FieldRef>) {
    && OncePerNode(dirty)
    && DirtyUids(dirty) == UidsOf(refs)
    && forall i :: 0 <= i < |dirty| ==> MaskIs(w, dirty[i], refs)
  }

  function FindDirty(dirty: seq<(Uid, Masks)>, uid: Uid): (r: nat)
    ensures r <= |dirty| && (r < |dirty| ==> dirty[r].0 == uid)
    ensures forall i :: 0 <= i < r ==> dirty[i].0 != uid
  {
    if dirty == [] || dirty[0].0 == uid then 0 else 1 + FindDirty(dirty[1..], uid)
  }

  function MarkDirty(dirty: seq<(Uid, Masks)>, uid: Uid, t: Target): seq<(Uid, Masks)> {
    var i := FindDirty(dirty, uid);
    if i < |dirty| then dirty[i := (uid, MergeMask(dirty[i].1, t))] else dirty + [(uid, MergeMask(NO_MASKS, t))]
  }

  lemma MarkDirtyUids(dirty: seq<(Uid, Masks)>, uid: Uid, t: Target)
    requires OncePerNode(dirty)
    ensures OncePerNode(MarkDirty(dirty, uid, t))
    ensures DirtyUids(MarkDirty(dirty, uid, t)) == DirtyUids(dirty) + {uid}
  {
    hide MergeMask;
    var after := MarkDirty(dirty, uid, t);
    assert forall i :: 0 <= i < |dirty| ==> after[i].0 == dirty[i].0;
    assert after[FindDirty(dirty, uid)].0 == uid;
  }

  lemma MaskWith(w: World, d: (Uid, Masks), refs: set<FieldRef>, r: FieldRef)
    requires MaskIs(w, d, refs)
    ensures d.0 != r.uid ==> MaskIs(w, d, refs + {r})
    ensures d.0 == r.uid ==> MaskIs(w, (d.0, MergeMask(d.1, w.targets(r.field))), refs + {r})
  {
    hide ChannelsOf, TargetChannels, MergeMask;
    MergeMaskIsUnion(d.1, w.targets(r.field));
    assert ChannelsFor(w, refs + {r}, d.0)
        == ChannelsFor(w, refs, d.0) + if d.0 == r.uid then TargetChannels(w.targets(r.field)) else {};
  }

  lemma FreshMask(w: World, refs: set<FieldRef>, uid: Uid)
    requires uid !in UidsOf(refs)
    ensures MaskIs(w, (uid, NO_MASKS), refs)
  {
    hide TargetChannels;
    assert ChannelsOf(NO_MASKS) == {};
  }

  lemma MarkDirtyOk(w: World, dirty: seq<(Uid, Masks)>, refs: set<FieldRef>, r: FieldRef)
    requires DirtyOk(w, dirty, refs)
    ensures DirtyOk(w, MarkDirty(dirty, r.uid, w.targets(r.field)), refs + {r})
  {
    hide MaskIs, MergeMask;
    var t := w.targets(r.field);
    var i, after := FindDirty(dirty, r.uid), MarkDirty(dirty, r.uid, t);
    MarkDirtyUids(dirty, r.uid, t);
    assert UidsOf(refs + {r}) == UidsOf(refs) + {r.uid};
    forall j | 0 <= j < |after| ensures MaskIs(w, after[j], refs + {r}) {
      if j < |dirty| {
        MaskWith(w, dirty[j], refs, r);
      } else {
        FreshMask(w, refs, r.uid);
        MaskWith(w, (r.uid, NO_MASKS), refs, r);
      }
    }
  }

  /** Slots of the first `n` dirty nodes. */
  function DirtySlots(w: World, dirty: seq<(Uid, Masks)>, n: nat): set<Slot>
    requires n <= |dirty|
  {
    if n == 0 then {}
    else
      var d := dirty[n - 1];
      DirtySlots(w, dirty, n - 1) + NodeSlots(w, d.0, ChannelsOf(d.1))
  }

  function NodeSlots(w: World, uid: Uid, cs: set<Channel>): set<Slot> {
    var image := uid in w.nodes && w.nodes[uid].image;
    set c | c in Applied(image, cs) :: Slot(uid, c)
  }

  /** Applying each dirty node once reaches exactly the slots of the written fields. */
  lemma DirtyReachesTouched(w: World, dirty: seq<(Uid, Masks)>, refs: set<FieldRef>)
    requires DirtyOk(w, dirty, refs)
    ensures DirtySlots(w, dirty, |dirty|) == Touched(w, refs)
  {
    hide ChannelsOf, ChannelsFor, Reach, NodeSlots, DirtySlots;
    forall s ensures s in DirtySlots(w, dirty, |dirty|) <==> s in Touched(w, refs) {
      DirtySlotsHas(w, dirty, |dirty|, s);
      if s in Touched(w, refs) {
        var r :| r in refs && s in Reach(w, r);
        assert r.uid in DirtyUids(dirty);
        var i :| 0 <= i < |dirty| && dirty[i].0 == r.uid;
        ReachInNode(w, refs, r);
        assert MaskIs(w, dirty[i], refs);
      } else if i :| 0 <= i < |dirty| && s in NodeSlots(w, dirty[i].0, ChannelsOf(dirty[i].1)) {
        assert MaskIs(w, dirty[i], refs);
        var r := NodeSlotReached(w, refs, dirty[i].0, s);
        assert false;
      }
    }
  }

  lemma DirtySlotsHas(w: World, dirty: seq<(Uid, Masks)>, n: nat, s: Slot)
    requires n <= |dirty|
    ensures s in DirtySlots(w, dirty, n) <==>
            exists i :: 0 <= i < n && s in NodeSlots(w, dirty[i].0, ChannelsOf(dirty[i].1))
  {
    hide ChannelsOf, NodeSlots;
    if n > 0 {
      DirtySlotsHas(w, dirty, n - 1, s);
    }
  }

  lemma ReachInNode(w: World, refs: set<FieldRef>, r: FieldRef)
    requires r in refs
    ensures Reach(w, r) <= NodeSlots(w, r.uid, ChannelsFor(w, refs, r.uid))
  {
    hide ChannelsOf, TargetChannels;
    var image := r.uid in w.nodes && w.nodes[r.uid].image;
    var a, b := TargetChannels(w.targets(r.field)), ChannelsFor(w, refs, r.uid);
    assert a <= b;
    assert a + b == b;
    AppliedIsAdditive(image, a, b);
  }

  lemma NodeSlotReached(w: World, refs: set<FieldRef>, uid: Uid, s: Slot) returns (r: FieldRef)
    requires s in NodeSlots(w, uid, ChannelsFor(w, refs, uid))
    ensures r in refs && s in Reach(w, r)
  {
    hide ChannelsOf, TargetChannels;
    var c := s.channel;
    var cause := if c in ChannelsFor(w, refs, uid) then c
                 else if c == TRANSFORM && SIZE in ChannelsFor(w, refs, uid) then SIZE else IMAGE_SOURCE;
    r :| r in refs && r.uid == uid && cause in TargetChannels(w.targets(r.field));
  }

  // ---- Showing slots ----

  function SlotsOf(uid: Uid, channels: set<Channel>): set<Slot> {
    set c | c in channels :: Slot(uid, c)
  }

  function OnlyProps(m: Masks): set<Channel> {
    set b | b in m.props :: Props(b)
  }

  function OnlyStyle(m: Masks): set<Channel> {
    set b | b in m.style :: Style(b)
  }

  function OnlyLayout(m: Masks): set<Channel> {
    set b | b in m.layout :: Layout(b)
  }

  function OnlyPlacement(m: Masks): set<Channel> {
    set b | b in m.placement :: Placement(b)
  }

  lemma ShowNone(w: World, shown: map<Slot, map<FieldRef, string>>, fields: map<FieldRef, string>)
    ensures shown + ShowAll(w, {}, fields) == shown
  {
  }

  /** `now` is `before` with these channels of one node shown on top. */
  predicate Showing(w: World, uid: Uid, before: map<Slot, map<FieldRef, string>>, now: map<Slot, map<FieldRef, string>>,
                    fields: map<FieldRef, string>, channels: set<Channel>)
  {
    now == before + ShowAll(w, SlotsOf(uid, channels), fields)
  }

  lemma ShowingNothing(w: World, uid: Uid, shown: map<Slot, map<FieldRef, string>>, fields: map<FieldRef, string>)
    ensures Showing(w, uid, shown, shown, fields, {})
  {
  }

  lemma ShowingMore(w: World, uid: Uid, before: map<Slot, map<FieldRef, string>>, now: map<Slot, map<FieldRef, string>>,
                    fields: map<FieldRef, string>, done: set<Channel>, more: set<Channel>)
    requires Showing(w, uid, before, now, fields, done)
    ensures Showing(w, uid, before, now + ShowAll(w, SlotsOf(uid, more), fields), fields, done + more)
  {
    ShowTwice(w, before, fields, fields, SlotsOf(uid, done), SlotsOf(uid, more));
    assert SlotsOf(uid, done + more) == SlotsOf(uid, done) + SlotsOf(uid, more);
  }

  lemma DomainsCover(m: Masks)
    ensures ChannelsOf(m) == OnlyProps(m) + OnlyStyle(m) + OnlyLayout(m) + OnlyPlacement(m)
    ensures m.props == {} ==> OnlyProps(m) == {}
    ensures m.style == {} ==> OnlyStyle(m) == {}
    ensures m.layout == {} ==> OnlyLayout(m) == {}
    ensures m.placement == {} ==> OnlyPlacement(m) == {}
    ensures IMAGE_SOURCE in ChannelsOf(m) <==> IMAGE_SOURCE.bit in m.props
    ensures SIZE in ChannelsOf(m) <==> SIZE.bit in m.placement
  {
  }

  lemma AllDomainsShown(w: World, uid: Uid, m: Masks, before: map<Slot, map<FieldRef, string>>,
                        now: map<Slot, map<FieldRef, string>>, fields: map<FieldRef, string>, done: set<Channel>)
    requires uid in w.nodes && Showing(w, uid, before, now, fields, done)
    requires done == OnlyProps(m) + (if w.nodes[uid].image && IMAGE_SOURCE.bit in m.props then {SIZE} else {})
                     + OnlyStyle(m) + OnlyLayout(m) + OnlyPlacement(m)
                     + if SIZE.bit in m.placement then {TRANSFORM} else {}
    ensures now == before + ShowAll(w, NodeSlots(w, uid, ChannelsOf(m)), fields)
  {
    hide ShowAll, ChannelsOf, OnlyProps, OnlyStyle, OnlyLayout, OnlyPlacement;
    DomainsCover(m);
    assert done == Applied(w.nodes[uid].image, ChannelsOf(m));
    assert NodeSlots(w, uid, ChannelsOf(m)) == SlotsOf(uid, done);
  }

  lemma MatchedOneMore(w: World, uid: Uid, bindings: seq<Binding>, n: nat, u: Update)
    requires n < |bindings|
    ensures MatchedRefs(w, uid, bindings, n + 1, u) == MatchedRefs(w, uid, bindings, n, u)
            + if Matches(w, bindings[n], u) then {FieldRef(uid, bindings[n].field.value)} else {}
  {
    var before, after := MatchedRefs(w, uid, bindings, n, u), MatchedRefs(w, uid, bindings, n + 1, u);
    forall r | r in after && r !in before
      ensures Matches(w, bindings[n], u) && r == FieldRef(uid, bindings[n].field.value)
    {
      var i :| 0 <= i < n + 1 && Matches(w, bindings[i], u) && r == FieldRef(uid, bindings[i].field.value);
      assert i == n;
    }
    assert Matches(w, bindings[n], u) ==> FieldRef(uid, bindings[n].field.value) in after;
    assert before <= after;
  }

  lemma MatchedNone(w: World, uid: Uid, bindings: seq<Binding>, u: Update)
    ensures MatchedRefs(w, uid, bindings, 0, u) == {}
  {
  }

  lemma ValuedNothing(fields: map<FieldRef, string>, value: string)
    ensures fields + Valued({}, value) == fields
  {
  }

  lemma ValuedOneMore(fields: map<FieldRef, string>, done: set<FieldRef>, r: FieldRef, value: string)
    ensures (fields + Valued(done, value))[r := value] == fields + Valued(done + {r}, value)
  {
  }

  lemma AnnounceStep(w: World, store: map<string, string>, us: seq<Update>, i: nat)
    requires i < |us|
    ensures var key := StoreKey(w, us[i]);
            Announcements(w, store, Unshadowed(us[i..])) ==
            (if !Shadowed(us, i) && key in store && store[key] == us[i].value then [(key, us[i].value)] else [])
            + Announcements(w, store, Unshadowed(us[i + 1..]))
  {
    hide Shadowed, StoreKey;
    UnshadowedFrom(us, i);
    var rest := Unshadowed(us[i + 1..]);
    hide Unshadowed;
    if Shadowed(us, i) {
      assert Unshadowed(us[i..]) == rest;
    } else {
      assert Unshadowed(us[i..])[0] == us[i] && Unshadowed(us[i..])[1..] == rest;
    }
  }

  class BindingRuntime {
    const world: World
    var store: map<string, string>
    var fields: map<FieldRef, string>
    var shown: map<Slot, map<FieldRef, string>>
    var announced: seq<(string, string)>

    constructor (world: World, s: State)
      ensures this.world == world && Current() == s && announced == []
    {
      this.world := world;
      store, fields, shown, announced := s.store, s.fields, s.shown, [];
    }

    function Current(): State
      reads this
    {
      State(store, fields, shown)
    }

    method IsShadowed(us: seq<Update>, i: nat) returns (shadowed: bool)
      requires i < |us|
      ensures shadowed == Shadowed(us, i)
    {
      for later := i + 1 to |us|
        invariant forall j :: i < j < later ==> !SameTarget(us[i], us[j])
      {
        if us[i].path == us[later].path && us[i].key == us[later].key {
          assert SameTarget(us[i], us[later]);
          return true;
        }
      }
      return false;
    }

    /** First pass: the last value of every path and key goes into the store, nobody is told yet. */
    method WriteStore(us: seq<Update>)
      modifies this`store
      ensures store == RunStore(world, old(store), Unshadowed(us))
    {
      assert us[0..] == us;
      for i := 0 to |us|
        invariant RunStore(world, store, Unshadowed(us[i..])) == RunStore(world, old(store), Unshadowed(us))
      {
        UnshadowedSplit(us[i..]);
        ShadowedTail(us, i);
        assert us[i..][1..] == us[i + 1..];
        var shadowed := IsShadowed(us, i);
        if !shadowed {
          ghost var before := store;
          store := store[StoreKey(world, us[i]) := us[i].value];
          assert store == before + StoreWrite(world, us[i]);
        }
      }
    }

    /** Writes one update through every matching binding of its node and remembers what to re-apply. */
    method ApplyUpdate(u: Update, dirty: seq<(Uid, Masks)>, ghost refs: set<FieldRef>)
      returns (marked: seq<(Uid, Masks)>)
      requires DirtyOk(world, dirty, refs)
      modifies this`fields
      ensures fields == old(fields) + FieldWrite(world, u)
      ensures DirtyOk(world, marked, refs + FieldRefs(world, u))
      ensures WrittenBy(world, u, old(fields), fields)
    {
      hide DirtyOk, MarkDirty, QueryPath, MatchedRefs, Valued, WrittenBy;
      WriteMeans(world, u, fields);
      marked := dirty;
      var target := TargetUid(world, u);
      if target.None? {
        ValuedNothing(fields, u.value);
        assert refs == refs + FieldRefs(world, u);
        return;
      }
      var uid := target.value;
      var bindings := world.nodes[uid].bindings;
      ghost var done: set<FieldRef> := {};
      assert refs + done == refs;
      ValuedNothing(fields, u.value);
      MatchedNone(world, uid, bindings, u);
      for b := 0 to |bindings|
        invariant done == MatchedRefs(world, uid, bindings, b, u)
        invariant fields == old(fields) + Valued(done, u.value)
        invariant DirtyOk(world, marked, refs + done)
      {
        var binding := bindings[b];
        MatchedOneMore(world, uid, bindings, b, u);
        if binding.key != Some(u.key) || binding.field.None? || !world.accepts(binding.field.value, u.value) {
          continue;
        }
        var r := FieldRef(uid, binding.field.value);
        ValuedOneMore(old(fields), done, r, u.value);
        fields := fields[r := u.value];
        MarkDirtyOk(world, marked, refs + done, r);
        marked := MarkDirty(marked, uid, world.targets(binding.field.value));
        assert refs + (done + {r}) == refs + done + {r};
        done := done + {r};
      }
      assert done == FieldRefs(world, u);
    }

    /** Second pass: the surviving updates go into the node records, in order. */
    method ApplyUpdates(us: seq<Update>) returns (dirty: seq<(Uid, Masks)>)
      modifies this`fields
      ensures fields == RunFields(world, old(fields), Unshadowed(us))
      ensures DirtyOk(world, dirty, AllRefs(world, Unshadowed(us)))
    {
      hide FieldRefs, DirtyOk;
      dirty := [];
      ghost var refs: set<FieldRef> := {};
      NothingDirty(world);
      assert us[0..] == us;
      for i := 0 to |us|
        invariant RunFields(world, fields, Unshadowed(us[i..])) == RunFields(world, old(fields), Unshadowed(us))
        invariant refs + AllRefs(world, Unshadowed(us[i..])) == AllRefs(world, Unshadowed(us))
        invariant DirtyOk(world, dirty, refs)
      {
        UnshadowedSplit(us[i..]);
        ShadowedTail(us, i);
        assert us[i..][1..] == us[i + 1..];
        var shadowed := IsShadowed(us, i);
        if !shadowed {
          dirty := ApplyUpdate(us[i], dirty, refs);
          refs := refs + FieldRefs(world, us[i]);
        }
      }
      assert refs == AllRefs(world, Unshadowed(us));
    }

    /** The backend receives the current values for some mask bits of a node. */
    method ShowChannels(uid: Uid, channels: set<Channel>, ghost before: map<Slot, map<FieldRef, string>>,
                        ghost done: set<Channel>)
      requires Showing(world, uid, before, shown, fields, done)
      modifies this`shown
      ensures Showing(world, uid, before, shown, fields, done + channels)
    {
      ShowingMore(world, uid, before, shown, fields, done, channels);
      shown := shown + ShowAll(world, SlotsOf(uid, channels), fields);
    }

    /** One node's merged masks, domain by domain, with the two couplings between domains. */
    method ReapplyMasks(uid: Uid, masks: Masks)
      requires uid in world.nodes
      modifies this`shown
      ensures shown == old(shown) + ShowAll(world, NodeSlots(world, uid, ChannelsOf(masks)), fields)
    {
      hide Showing, ChannelsOf, NodeSlots, OnlyProps, OnlyStyle, OnlyLayout, OnlyPlacement;
      ghost var before, done: set<Channel> := shown, {};
      var image := world.nodes[uid].image;
      ShowingNothing(world, uid, shown, fields);
      DomainsCover(masks);
      if masks.props != {} {
        ShowChannels(uid, OnlyProps(masks), before, done);
        done := done + OnlyProps(masks);
        if image && IMAGE_SOURCE.bit in masks.props {
          ShowChannels(uid, {SIZE}, before, done);
          done := done + {SIZE};
        }
      }
      assert done == OnlyProps(masks) + if image && IMAGE_SOURCE.bit in masks.props then {SIZE} else {};
      ghost var withProps := done;
      if masks.style != {} {
        ShowChannels(uid, OnlyStyle(masks), before, done);
        done := done + OnlyStyle(masks);
      }
      assert done == withProps + OnlyStyle(masks);
      if masks.layout != {} {
        ShowChannels(uid, OnlyLayout(masks), before, done);
        done := done + OnlyLayout(masks);
      }
      assert done == withProps + OnlyStyle(masks) + OnlyLayout(masks);
      if masks.placement != {} {
        ShowChannels(uid, OnlyPlacement(masks), before, done);
        done := done + OnlyPlacement(masks);
        if SIZE.bit in masks.placement {
          ShowChannels(uid, {TRANSFORM}, before, done);
          done := done + {TRANSFORM};
        }
      }
      assert done == withProps + OnlyStyle(masks) + OnlyLayout(masks) + OnlyPlacement(masks)
                     + if SIZE.bit in masks.placement then {TRANSFORM} else {};
      AllDomainsShown(world, uid, masks, before, shown, fields, done);
    }

    /** A single field's target shows exactly what merged masks of that one target would. */
    method ReapplyDomain(uid: Uid, target: Target)
      requires uid in world.nodes
      modifies this`shown
      ensures shown == old(shown)
              + ShowAll(world, NodeSlots(world, uid, ChannelsOf(MergeMask(NO_MASKS, target))), fields)
    {
      hide Showing, ChannelsOf, NodeSlots, OnlyProps, OnlyStyle, OnlyLayout, OnlyPlacement;
      ghost var before, done: set<Channel> := shown, {};
      var image, masks := world.nodes[uid].image, MergeMask(NO_MASKS, target);
      ShowingNothing(world, uid, shown, fields);
      DomainsCover(masks);
      match target.domain {
        case PropsDomain =>
          ShowChannels(uid, OnlyProps(masks), before, done);
          done := done + OnlyProps(masks);
          if image && IMAGE_SOURCE.bit in target.bits {
            ShowChannels(uid, {SIZE}, before, done);
            done := done + {SIZE};
          }
        case StyleDomain =>
          ShowChannels(uid, OnlyStyle(masks), before, done);
          done := done + OnlyStyle(masks);
        case LayoutDomain =>
          ShowChannels(uid, OnlyLayout(masks), before, done);
          done := done + OnlyLayout(masks);
        case PlacementDomain =>
          ShowChannels(uid, OnlyPlacement(masks), before, done);
          done := done + OnlyPlacement(masks);
          if SIZE.bit in target.bits {
            ShowChannels(uid, {TRANSFORM}, before, done);
            done := done + {TRANSFORM};
          }
      }
      AllDomainsShown(world, uid, masks, before, shown, fields, done);
    }

    /** Third pass: every dirty node is applied once. */
    method ReapplyDirty(dirty: seq<(Uid, Masks)>)
      requires forall i :: 0 <= i < |dirty| ==> dirty[i].0 in world.nodes
      modifies this`shown
      ensures shown == old(shown) + ShowAll(world, DirtySlots(world, dirty, |dirty|), fields)
    {
      hide ShowAll, NodeSlots, ChannelsOf;
      ShowNone(world, shown, fields);
      for i := 0 to |dirty|
        invariant shown == old(shown) + ShowAll(world, DirtySlots(world, dirty, i), fields)
      {
        ShowTwice(world, old(shown), fields, fields, DirtySlots(world, dirty, i),
                  NodeSlots(world, dirty[i].0, ChannelsOf(dirty[i].1)));
        ReapplyMasks(dirty[i].0, dirty[i].1);
      }
    }

    /** Last pass: announce each surviving update unless the store has moved on. */
    method Announce(us: seq<Update>)
      modifies this`announced
      ensures announced == old(announced) + Announcements(world, store, Unshadowed(us))
    {
      hide Announcements, Unshadowed, Shadowed, StoreKey;
      assert us[0..] == us;
      for i := 0 to |us|
        invariant announced + Announcements(world, store, Unshadowed(us[i..]))
                  == old(announced) + Announcements(world, store, Unshadowed(us))
      {
        AnnounceStep(world, store, us, i);
        ghost var rest := Announcements(world, store, Unshadowed(us[i + 1..]));
        var shadowed := IsShadowed(us, i);
        if !shadowed {
          var key := StoreKey(world, us[i]);
          if key in store && store[key] == us[i].value {
            assert announced + ([(key, us[i].value)] + rest) == announced + [(key, us[i].value)] + rest;
            announced := announced + [(key, us[i].value)];
          }
        }
      }
      NothingLeft(world, store, us);
    }

    method SetBindingValues(us: seq<Update>) returns (dirty: seq<(Uid, Masks)>)
      modifies this
      ensures Current() == Batch(world, old(Current()), us)
      ensures announced == old(announced) + Announcements(world, store, Unshadowed(us))
      ensures DirtyOk(world, dirty, AllRefs(world, Unshadowed(us)))
      ensures StoreMeans(world, us, old(store), store)
      ensures FieldsMean(world, us, old(fields), fields)
      ensures ShownMeans(world, us, old(shown), shown, fields)
      ensures announced == old(announced) + Heard(world, store, us, |us|)
    {
      hide Show, FieldRefs, DirtyOk, DirtySlots, Touched, Announcements, StoreMeans, FieldsMean, ShownMeans;
      BatchMeans(world, Current(), us);
      WriteStore(us);
      dirty := ApplyUpdates(us);
      DirtyNodesExist(world, dirty, Unshadowed(us));
      ReapplyDirty(dirty);
      DirtyReachesTouched(world, dirty, AllRefs(world, Unshadowed(us)));
      Announce(us);
      AnnouncementsMean(world, store, us);
    }
  }

  lemma NothingLeft(w: World, store: map<string, string>, us: seq<Update>)
    ensures Announcements(w, store, Unshadowed(us[|us|..])) == []
  {
  }

  lemma NothingDirty(w: World)
    ensures DirtyOk(w, [], {})
  {
  }

  lemma AllRefsLive(w: World, us: seq<Update>)
    ensures forall r :: r in AllRefs(w, us) ==> r.uid in w.nodes
  {
  }

  lemma DirtyNodesExist(w: World, dirty: seq<(Uid, Masks)>, us: seq<Update>)
    requires DirtyOk(w, dirty, AllRefs(w, us))
    ensures forall i :: 0 <= i < |dirty| ==> dirty[i].0 in w.nodes
  {
    hide AllRefs;
    AllRefsLive(w, us);
    forall i | 0 <= i < |dirty| ensures dirty[i].0 in w.nodes {
      assert dirty[i].0 in DirtyUids(dirty);
    }
  }
}
