/** The in-memory data store: values, sparse listener buckets, and notifications interleaved with re-entrant calls. */
module DataStore {
  import opened Keys

  type Id = nat

  datatype Option<T> = None | Some(value: T)

  /** The tables of the store; `active` holds the listener controls whose flag is still set. */
  datatype Store = Store(values: map<string, string>, buckets: map<string, seq<Id>>, count: int, nextId: Id,
                         active: set<Id>)

  // ---- Buckets ----

  function Bucket(buckets: map<string, seq<Id>>, key: string): seq<Id> {
    if key in buckets then buckets[key] else []
  }

  function WithBucket(buckets: map<string, seq<Id>>, key: string, bucket: seq<Id>): map<string, seq<Id>> {
    if bucket == [] then buckets - {key} else buckets[key := bucket]
  }

  function Positions(buckets: map<string, seq<Id>>): set<(string, int)> {
    set k, i | k in buckets && 0 <= i < |buckets[k]| :: (k, i)
  }

  /** Number of listed listeners: the sum of the bucket sizes. */
  function Listed(buckets: map<string, seq<Id>>): nat {
    |Positions(buckets)|
  }

  function Row(key: string, n: nat): set<(string, int)> {
    set i | 0 <= i < n :: (key, i)
  }

  lemma RowSize(key: string, n: nat)
    ensures |Row(key, n)| == n
  {
    if n > 0 {
      RowSize(key, n - 1);
      assert Row(key, n) == Row(key, n - 1) + {(key, n - 1)};
    } else {
      assert Row(key, 0) == {};
    }
  }

  lemma PositionsSplit(buckets: map<string, seq<Id>>, key: string)
    ensures Positions(buckets) == Positions(buckets - {key}) + Row(key, |Bucket(buckets, key)|)
    ensures Positions(buckets - {key}) !! Row(key, |Bucket(buckets, key)|)
    ensures Listed(buckets) == Listed(buckets - {key}) + |Bucket(buckets, key)|
  {
    RowSize(key, |Bucket(buckets, key)|);
  }

  /** Replacing one bucket changes the sum by the difference of the two sizes. */
  lemma ListedWithBucket(buckets: map<string, seq<Id>>, key: string, bucket: seq<Id>)
    ensures Listed(WithBucket(buckets, key, bucket)) == Listed(buckets) - |Bucket(buckets, key)| + |bucket|
  {
    hide Listed;
    var after := WithBucket(buckets, key, bucket);
    PositionsSplit(buckets, key);
    PositionsSplit(after, key);
    assert after - {key} == buckets - {key};
  }

  lemma ListedSplit(buckets: map<string, seq<Id>>, keys: set<string>)
    ensures Listed(buckets) == Listed(buckets - keys) + Listed(map k | k in buckets && k in keys :: buckets[k])
  {
    var inside := map k | k in buckets && k in keys :: buckets[k];
    assert Positions(buckets) == Positions(buckets - keys) + Positions(inside);
    assert Positions(buckets - keys) !! Positions(inside);
  }

  predicate Holds(buckets: map<string, seq<Id>>, key: string, id: Id) {
    key in buckets && id in buckets[key]
  }

  /** No id is listed twice, neither in one bucket nor in two. */
  ghost predicate UniqueIds(buckets: map<string, seq<Id>>) {
    && (forall k, i, j :: k in buckets && 0 <= i < j < |buckets[k]| ==> buckets[k][i] != buckets[k][j])
    && (forall k, l, id :: Holds(buckets, k, id) && Holds(buckets, l, id) ==> k == l)
  }

  predicate NoneEmpty(buckets: map<string, seq<Id>>) {
    forall k :: k in buckets ==> buckets[k] != []
  }

  ghost predicate StoreOk(s: Store) {
    && s.count == Listed(s.buckets)
    && NoneEmpty(s.buckets)
    && UniqueIds(s.buckets)
    && (forall id :: id in s.active ==> id < s.nextId)
    && (forall id :: id in s.active <==> exists k :: Holds(s.buckets, k, id))
  }

  // ---- Operations ----

  function SetValue(s: Store, key: string, value: string): Store {
    s.(values := s.values[key := value])
  }

  function Subscribed(s: Store, key: string): Store {
    s.(buckets := s.buckets[key := Bucket(s.buckets, key) + [s.nextId]], count := s.count + 1,
       nextId := s.nextId + 1, active := s.active + {s.nextId})
  }

  /** A bucket without the first record of an id. */
  function Dropped(bucket: seq<Id>, id: Id): (r: seq<Id>)
    ensures id !in bucket ==> r == bucket
    ensures id in bucket ==> |r| == |bucket| - 1
    ensures forall x :: x in r ==> x in bucket
    ensures forall x :: x in bucket && x != id ==> x in r
  {
    if bucket == [] then []
    else if bucket[0] == id then bucket[1..]
    else [bucket[0]] + Dropped(bucket[1..], id)
  }

  /** Every bucket loses the id, and a bucket left empty disappears. */
  function Without(buckets: map<string, seq<Id>>, id: Id): map<string, seq<Id>> {
    map k | k in buckets && Dropped(buckets[k], id) != [] :: Dropped(buckets[k], id)
  }

  function Unsubscribed(s: Store, id: Id): Store {
    s.(buckets := Without(s.buckets, id), count := s.count - (if id in s.active then 1 else 0),
       active := s.active - {id})
  }

  function OwnedKeys(keys: set<string>, document: nat): set<string> {
    set k | k in keys && OwnedBy(k, document)
  }

  function IdsUnder(buckets: map<string, seq<Id>>, keys: set<string>): set<Id> {
    set k, id | k in keys && k in buckets && id in buckets[k] :: id
  }

  function Forgotten(s: Store, document: nat): Store {
    var gone := OwnedKeys(s.buckets.Keys, document);
    s.(values := s.values - OwnedKeys(s.values.Keys, document), buckets := s.buckets - gone,
       count := s.count - (Listed(s.buckets) - Listed(s.buckets - gone)),
       active := s.active - IdsUnder(s.buckets, gone))
  }

  // ---- Every operation keeps the tables in agreement ----

  lemma SetValueOk(s: Store, key: string, value: string)
    requires StoreOk(s)
    ensures StoreOk(SetValue(s, key, value))
  {
  }

  lemma SubscribedOk(s: Store, key: string)
    requires StoreOk(s)
    ensures StoreOk(Subscribed(s, key))
  {
    var t := Subscribed(s, key);
    var before, bucket := Bucket(s.buckets, key), t.buckets[key];
    ListedWithBucket(s.buckets, key, bucket);
    assert forall k, id :: Holds(s.buckets, k, id) ==> id in s.active;
    assert forall k, id :: Holds(t.buckets, k, id) <==> Holds(s.buckets, k, id) || (k == key && id == s.nextId) by {
      forall k, id ensures Holds(t.buckets, k, id) <==> Holds(s.buckets, k, id) || (k == key && id == s.nextId) {
        if k == key {
          assert id in bucket <==> id in before || id == s.nextId;
        }
      }
    }
    assert Holds(t.buckets, key, s.nextId);
    forall id ensures id in t.active <==> exists k :: Holds(t.buckets, k, id) {
      if id in s.active {
        var k :| Holds(s.buckets, k, id);
        assert Holds(t.buckets, k, id);
      }
    }
    assert s.nextId !in before by { assert forall id :: id in before ==> Holds(s.buckets, key, id); }
  }

  lemma DroppedDistinct(bucket: seq<Id>, id: Id)
    requires forall i, j :: 0 <= i < j < |bucket| ==> bucket[i] != bucket[j]
    ensures id !in Dropped(bucket, id)
    ensures forall i, j :: 0 <= i < j < |Dropped(bucket, id)| ==> Dropped(bucket, id)[i] != Dropped(bucket, id)[j]
  {
    if bucket != [] && bucket[0] != id {
      DroppedDistinct(bucket[1..], id);
      assert forall x :: x in Dropped(bucket[1..], id) ==> x in bucket[1..];
      assert bucket[0] !in bucket[1..];
    }
  }

  lemma WithoutIs(buckets: map<string, seq<Id>>, key: string, id: Id)
    requires UniqueIds(buckets) && NoneEmpty(buckets) && Holds(buckets, key, id)
    ensures Without(buckets, id) == WithBucket(buckets, key, Dropped(buckets[key], id))
  {
    assert forall k :: k in buckets && k != key ==> !Holds(buckets, k, id);
  }

  lemma UnsubscribedOk(s: Store, id: Id)
    requires StoreOk(s)
    ensures StoreOk(Unsubscribed(s, id))
    ensures id !in s.active ==> Unsubscribed(s, id) == s
  {
    if key :| Holds(s.buckets, key, id) {
      var dropped := Dropped(s.buckets[key], id);
      WithoutIs(s.buckets, key, id);
      ListedWithBucket(s.buckets, key, dropped);
      DroppedDistinct(s.buckets[key], id);
      var after := Without(s.buckets, id);
      forall k, x ensures Holds(after, k, x) <==> Holds(s.buckets, k, x) && x != id {
        if k != key && x == id {
          assert !Holds(s.buckets, k, id);
        }
      }
    } else {
      assert id !in s.active;
      assert forall k :: k in s.buckets ==> !Holds(s.buckets, k, id);
      assert Without(s.buckets, id) == s.buckets;
    }
  }

  lemma HeldUnder(buckets: map<string, seq<Id>>, keys: set<string>, k: string, id: Id)
    requires UniqueIds(buckets) && Holds(buckets, k, id)
    ensures id in IdsUnder(buckets, keys) <==> k in keys
  {
    if id in IdsUnder(buckets, keys) {
      var l :| l in keys && l in buckets && id in buckets[l];
      assert Holds(buckets, l, id);
    }
  }

  /** Forgetting removes exactly what the document owns. */
  lemma ForgottenOk(s: Store, document: nat)
    requires StoreOk(s)
    ensures StoreOk(Forgotten(s, document))
    ensures forall k :: OwnedBy(k, document) ==>
      k !in Forgotten(s, document).values && k !in Forgotten(s, document).buckets
    ensures forall k :: !OwnedBy(k, document) && k in s.values ==>
              k in Forgotten(s, document).values && Forgotten(s, document).values[k] == s.values[k]
    ensures forall k :: !OwnedBy(k, document) && k in s.buckets ==>
              k in Forgotten(s, document).buckets && Forgotten(s, document).buckets[k] == s.buckets[k]
  {
    hide OwnedBy;
    var t, gone := Forgotten(s, document), OwnedKeys(s.buckets.Keys, document);
    ListedSplit(s.buckets, gone);
    forall k, id ensures Holds(t.buckets, k, id) <==> Holds(s.buckets, k, id) && k !in gone {
    }
    forall id ensures id in t.active <==> exists k :: Holds(t.buckets, k, id) {
      if k :| Holds(s.buckets, k, id) {
        HeldUnder(s.buckets, gone, k, id);
        assert Holds(t.buckets, k, id) <==> k !in gone;
      }
    }
  }

  // ---- Notifications as steps between which listeners and other callers act ----

  /** A notification under way: what it announces and the listeners of its snapshot still to visit. */
  datatype Frame = Frame(key: string, expected: string, pending: seq<Id>)

  /** One listener call and the notification that made it. */
  datatype Call = Call(frame: nat, id: Id, key: string, value: string)

  /** The store, the notifications under way, every call made so far, and the key each id subscribed to. */
  datatype Machine = Machine(store: Store, frames: map<nat, Frame>, nextFrame: nat, calls: seq<Call>,
                             keys: map<Id, string>)

  datatype Action =
    | SetSilent(key: string, value: string)
    | Subscribe(key: string)
    | Unsubscribe(id: Id)
    | Forget(document: nat)
    | Begin(key: string, expected: string)
    | Advance(frame: nat)

  predicate ValueIs(s: Store, key: string, value: string) {
    key in s.values && s.values[key] == value
  }

  /** The first locked section: nothing to do unless the key holds the announced value. */
  function Snapshot(s: Store, key: string, expected: string): Option<Frame> {
    if ValueIs(s, key, expected) then Some(Frame(key, expected, Bucket(s.buckets, key))) else None
  }

  /** One turn of the notification loop; no frame is left when it ends or finds the value changed. */
  function Visit(s: Store, f: Frame): (Option<Frame>, Option<Id>) {
    if f.pending == [] || !ValueIs(s, f.key, f.expected) then (None, None)
    else (Some(f.(pending := f.pending[1..])), if f.pending[0] in s.active then Some(f.pending[0]) else None)
  }

  function Step(m: Machine, a: Action): Machine {
    match a
    case SetSilent(key, value) => m.(store := SetValue(m.store, key, value))
    case Subscribe(key) => m.(store := Subscribed(m.store, key), keys := m.keys[m.store.nextId := key])
    case Unsubscribe(id) => m.(store := Unsubscribed(m.store, id))
    case Forget(document) => m.(store := Forgotten(m.store, document))
    case Begin(key, expected) =>
      (match Snapshot(m.store, key, expected)
       case None => m
       case Some(f) => m.(frames := m.frames[m.nextFrame := f], nextFrame := m.nextFrame + 1))
    case Advance(n) =>
      if n !in m.frames then m
      else
        var f := m.frames[n];
        var (next, called) := Visit(m.store, f);
        m.(frames := if next.Some? then m.frames[n := next.value] else m.frames - {n},
           calls := if called.Some? then m.calls + [Call(n, called.value, f.key, f.expected)] else m.calls)
  }

  function Run(m: Machine, actions: seq<Action>): Machine
    decreases |actions|
  {
    if actions == [] then m else Run(Step(m, actions[0]), actions[1..])
  }

  const START := Machine(Store(map[], map[], 0, 1, {}), map[], 0, [], map[])

  predicate Distinct(ids: seq<Id>) {
    forall i, j :: 0 <= i < j < |ids| ==> ids[i] != ids[j]
  }

  /** A frame visits known ids of its own key, each once, and none it has called already. */
  predicate FrameOk(m: Machine, n: nat) {
    n in m.frames ==>
      && n < m.nextFrame
      && Distinct(m.frames[n].pending)
      && (forall id :: id in m.frames[n].pending ==>
            id < m.store.nextId && id in m.keys && m.keys[id] == m.frames[n].key)
      && (forall c :: 0 <= c < |m.calls| && m.calls[c].frame == n ==> m.calls[c].id !in m.frames[n].pending)
  }

  predicate CallOk(m: Machine, c: nat) {
    c < |m.calls| ==>
      && m.calls[c].frame < m.nextFrame
      && m.calls[c].id in m.keys && m.keys[m.calls[c].id] == m.calls[c].key
      && (forall b :: 0 <= b < c ==> m.calls[b].frame != m.calls[c].frame || m.calls[b].id != m.calls[c].id)
  }

  ghost predicate MachineOk(m: Machine) {
    && StoreOk(m.store)
    && (forall k, id :: Holds(m.store.buckets, k, id) ==> id in m.keys && m.keys[id] == k)
    && (forall id :: id in m.keys ==> id < m.store.nextId)
    && (forall n :: FrameOk(m, n))
    && (forall c :: CallOk(m, c))
  }

  lemma StartOk()
    ensures MachineOk(START)
  {
    assert Positions(map[]) == {};
  }

  lemma BeginOk(m: Machine, key: string, expected: string)
    requires MachineOk(m)
    ensures MachineOk(Step(m, Begin(key, expected)))
  {
    hide StoreOk, ValueIs;
    var t := Step(m, Begin(key, expected));
    BucketFacts(m, key);
    forall n ensures FrameOk(t, n) {
      assert FrameOk(m, n);
      if n == m.nextFrame && n in t.frames {
        assert t.frames[n].pending == Bucket(m.store.buckets, key);
        forall c | 0 <= c < |m.calls| ensures m.calls[c].frame != n {
          assert CallOk(m, c);
        }
      }
    }
    forall c ensures CallOk(t, c) {
      assert CallOk(m, c);
    }
  }

  lemma BucketFacts(m: Machine, key: string)
    requires MachineOk(m)
    ensures Distinct(Bucket(m.store.buckets, key))
    ensures forall id :: id in Bucket(m.store.buckets, key) ==>
              id < m.store.nextId && id in m.keys && m.keys[id] == key
  {
    hide FrameOk, CallOk;
    forall id | id in Bucket(m.store.buckets, key) ensures id in m.keys && m.keys[id] == key {
      assert Holds(m.store.buckets, key, id);
    }
  }

  /** Changing only the store keeps every frame and call in order as long as ids stay known. */
  lemma StoreStepOk(m: Machine, t: Machine)
    requires MachineOk(m) && StoreOk(t.store)
    requires t.frames == m.frames && t.nextFrame == m.nextFrame && t.calls == m.calls
    requires m.store.nextId <= t.store.nextId && m.keys.Keys <= t.keys.Keys
    requires forall id :: id in m.keys ==> t.keys[id] == m.keys[id]
    requires forall id :: id in t.keys ==> id < t.store.nextId
    requires forall k, id :: Holds(t.store.buckets, k, id) ==> id in t.keys && t.keys[id] == k
    ensures MachineOk(t)
  {
    hide StoreOk;
    forall n ensures FrameOk(t, n) {
      assert FrameOk(m, n);
    }
    forall c ensures CallOk(t, c) {
      assert CallOk(m, c);
    }
  }

  lemma SubscribeOk(m: Machine, key: string)
    requires MachineOk(m)
    ensures MachineOk(Step(m, Subscribe(key)))
  {
    var t := Step(m, Subscribe(key));
    SubscribedOk(m.store, key);
    hide StoreOk, FrameOk, CallOk;
    forall k, id | Holds(t.store.buckets, k, id) ensures id in t.keys && t.keys[id] == k {
      assert Holds(m.store.buckets, k, id) || (k == key && id == m.store.nextId);
    }
    StoreStepOk(m, t);
  }

  lemma UnsubscribeOk(m: Machine, id: Id)
    requires MachineOk(m)
    ensures MachineOk(Step(m, Unsubscribe(id)))
  {
    var t := Step(m, Unsubscribe(id));
    UnsubscribedOk(m.store, id);
    hide StoreOk, FrameOk, CallOk;
    forall k, x | Holds(t.store.buckets, k, x) ensures x in t.keys && t.keys[x] == k {
      assert Holds(m.store.buckets, k, x);
    }
    StoreStepOk(m, t);
  }

  lemma ForgetOk(m: Machine, document: nat)
    requires MachineOk(m)
    ensures MachineOk(Step(m, Forget(document)))
  {
    hide OwnedBy, OwnedKeys, FrameOk, CallOk;
    var t := Step(m, Forget(document));
    ForgottenOk(m.store, document);
    hide StoreOk;
    forall k, x | Holds(t.store.buckets, k, x) ensures x in t.keys && t.keys[x] == k {
      assert Holds(m.store.buckets, k, x);
    }
    StoreStepOk(m, t);
  }

  lemma AdvanceOk(m: Machine, n: nat)
    requires MachineOk(m)
    ensures MachineOk(Step(m, Advance(n)))
  {
    hide StoreOk;
    var t := Step(m, Advance(n));
    assert FrameOk(m, n);
    forall k ensures FrameOk(t, k) {
      assert FrameOk(m, k);
      if k == n && k in t.frames {
        var pending := m.frames[n].pending;
        assert t.frames[n].pending == pending[1..];
        assert forall i :: 0 <= i < |pending[1..]| ==> pending[1..][i] == pending[i + 1];
        assert pending[0] !in pending[1..];
      }
    }
    forall c ensures CallOk(t, c) {
      assert CallOk(m, c);
    }
  }

  lemma StepOk(m: Machine, a: Action)
    requires MachineOk(m)
    ensures MachineOk(Step(m, a))
  {
    hide MachineOk;
    match a
    case SetSilent(key, value) => SetSilentOk(m, key, value);
    case Subscribe(key) => SubscribeOk(m, key);
    case Unsubscribe(id) => UnsubscribeOk(m, id);
    case Forget(document) => ForgetOk(m, document);
    case Begin(key, expected) => BeginOk(m, key, expected);
    case Advance(n) => AdvanceOk(m, n);
  }

  lemma SetSilentOk(m: Machine, key: string, value: string)
    requires MachineOk(m)
    ensures MachineOk(Step(m, SetSilent(key, value)))
  {
    SetValueOk(m.store, key, value);
    hide StoreOk;
    StoreStepOk(m, Step(m, SetSilent(key, value)));
  }

  /** The tables agree after every run, whatever listeners and other callers do between two turns. */
  lemma {:induction false} RunOk(m: Machine, actions: seq<Action>)
    requires MachineOk(m)
    ensures MachineOk(Run(m, actions))
    decreases |actions|
  {
    hide MachineOk, Step;
    if actions != [] {
      StepOk(m, actions[0]);
      RunOk(Step(m, actions[0]), actions[1..]);
    }
  }

  /** Over every run a notification calls a listener at most once, and only with the key it subscribed to. */
  lemma CalledAtMostOnce(actions: seq<Action>, b: nat, c: nat)
    requires b < c < |Run(START, actions).calls|
    ensures var m := Run(START, actions);
            && (m.calls[b].frame != m.calls[c].frame || m.calls[b].id != m.calls[c].id)
            && m.calls[c].id in m.keys && m.keys[m.calls[c].id] == m.calls[c].key
  {
    hide Run;
    StartOk();
    RunOk(START, actions);
    assert CallOk(Run(START, actions), c);
  }

  lemma CallsGrow(m: Machine, a: Action)
    ensures |m.calls| <= |Step(m, a).calls| <= |m.calls| + 1
    ensures Step(m, a).calls[..|m.calls|] == m.calls
    ensures |Step(m, a).calls| > |m.calls| ==>
              var call := Step(m, a).calls[|m.calls|];
              && a == Advance(call.frame) && call.frame in m.frames
              && call.key == m.frames[call.frame].key && call.value == m.frames[call.frame].expected
              && m.frames[call.frame].pending != [] && call.id == m.frames[call.frame].pending[0]
              && call.id in m.store.active && ValueIs(m.store, call.key, call.value)
  {
  }

  lemma {:induction false} RunCallsGrow(m: Machine, actions: seq<Action>)
    ensures |m.calls| <= |Run(m, actions).calls| && Run(m, actions).calls[..|m.calls|] == m.calls
    decreases |actions|
  {
    hide Step;
    if actions != [] {
      CallsGrow(m, actions[0]);
      var m1 := Step(m, actions[0]);
      RunCallsGrow(m1, actions[1..]);
      assert Run(m1, actions[1..]).calls[..|m1.calls|][..|m.calls|] == m.calls;
    }
  }

  /** Every call of a run was due: at its turn the listener was active and the key held the announced value. */
  lemma {:induction false} CallWasDue(m: Machine, actions: seq<Action>, c: nat) returns (i: nat)
    requires |m.calls| <= c < |Run(m, actions).calls|
    ensures i < |actions|
    ensures var before, call := Run(m, actions[..i]), Run(m, actions).calls[c];
            && actions[i] == Advance(call.frame) && |before.calls| == c
            && call.id in before.store.active && ValueIs(before.store, call.key, call.value)
    decreases |actions|
  {
    hide Step, ValueIs;
    var m1 := Step(m, actions[0]);
    CallsGrow(m, actions[0]);
    RunCallsGrow(m1, actions[1..]);
    if c < |m1.calls| {
      i := 0;
      assert actions[..0] == [];
      assert Run(m, actions).calls[c] == Run(m1, actions[1..]).calls[..|m1.calls|][c] == m1.calls[c];
    } else {
      var j := CallWasDue(m1, actions[1..], c);
      i := j + 1;
      assert actions[..i][1..] == actions[1..][..j];
    }
  }

  // ---- What can no longer happen ----

  lemma StaysInactive(m: Machine, a: Action, id: Id)
    requires id < m.store.nextId && id !in m.store.active
    ensures id < Step(m, a).store.nextId && id !in Step(m, a).store.active
  {
  }

  /** A listener once unsubscribed or forgotten is never called again, not even by notifications under way. */
  lemma {:induction false} SilencedForever(m: Machine, actions: seq<Action>, id: Id, c: nat)
    requires id < m.store.nextId && id !in m.store.active
    requires |m.calls| <= c < |Run(m, actions).calls|
    ensures Run(m, actions).calls[c].id != id
    decreases |actions|
  {
    hide Step, ValueIs;
    var m1 := Step(m, actions[0]);
    CallsGrow(m, actions[0]);
    RunCallsGrow(m1, actions[1..]);
    if c < |m1.calls| {
      assert Run(m, actions).calls[c] == Run(m1, actions[1..]).calls[..|m1.calls|][c] == m1.calls[c];
    } else {
      StaysInactive(m, actions[0], id);
      SilencedForever(m1, actions[1..], id, c);
    }
  }

  /** Forgetting a document silences every listener of its keys, and its values are gone. */
  lemma ForgetSilences(m: Machine, document: nat, actions: seq<Action>, c: nat)
    requires MachineOk(m)
    requires |m.calls| <= c < |Run(Step(m, Forget(document)), actions).calls|
    ensures var call := Run(Step(m, Forget(document)), actions).calls[c];
            call.id in m.keys ==> !OwnedBy(m.keys[call.id], document)
  {
    var t := Step(m, Forget(document));
    var call := Run(t, actions).calls[c];
    if call.id in m.keys && OwnedBy(m.keys[call.id], document) {
      InactiveAfterForget(m, document, call.id);
      SilencedForever(t, actions, call.id, c);
    }
  }

  lemma InactiveAfterForget(m: Machine, document: nat, id: Id)
    requires MachineOk(m) && id in m.keys && OwnedBy(m.keys[id], document)
    ensures id !in Step(m, Forget(document)).store.active
  {
    hide OwnedBy, FrameOk, CallOk;
    var gone := OwnedKeys(m.store.buckets.Keys, document);
    if id in m.store.active {
      var k :| Holds(m.store.buckets, k, id);
      HeldUnder(m.store.buckets, gone, k, id);
    }
  }

  /** Nothing left to say: the notification has ended, or its key no longer holds the announced value. */
  ghost predicate Quiet(m: Machine, n: nat, key: string, expected: string) {
    && n < m.nextFrame
    && (n in m.frames ==>
      m.frames[n].key == key && m.frames[n].expected == expected && !ValueIs(m.store, key, expected))
  }

  lemma StaysQuiet(m: Machine, a: Action, n: nat, key: string, expected: string)
    requires Quiet(m, n, key, expected) && a != SetSilent(key, expected)
    ensures Quiet(Step(m, a), n, key, expected)
  {
  }

  /** A notification whose value was overwritten makes no further call unless that very value is written back. */
  lemma {:induction false} StaleStaysSilent(m: Machine, actions: seq<Action>, n: nat, key: string, expected: string,
                                            c: nat)
    requires Quiet(m, n, key, expected) && SetSilent(key, expected) !in actions
    requires |m.calls| <= c < |Run(m, actions).calls|
    ensures Run(m, actions).calls[c].frame != n
    decreases |actions|
  {
    hide Step;
    var m1 := Step(m, actions[0]);
    CallsGrow(m, actions[0]);
    RunCallsGrow(m1, actions[1..]);
    StaysQuiet(m, actions[0], n, key, expected);
    if c < |m1.calls| {
      assert Run(m, actions).calls[c] == Run(m1, actions[1..]).calls[..|m1.calls|][c] == m1.calls[c];
    } else {
      StaleStaysSilent(m1, actions[1..], n, key, expected, c);
    }
  }

  // ---- A notification nobody interferes with ----

  function Turns(n: nat, k: nat): seq<Action> {
    if k == 0 then [] else [Advance(n)] + Turns(n, k - 1)
  }

  function CallsOf(n: nat, f: Frame): seq<Call>
    decreases |f.pending|
  {
    if f.pending == [] then []
    else [Call(n, f.pending[0], f.key, f.expected)] + CallsOf(n, f.(pending := f.pending[1..]))
  }

  /** Left alone, a notification calls its whole snapshot in order and ends, and changes nothing in the store. */
  lemma {:induction false} QuietTurns(m: Machine, n: nat)
    requires n in m.frames && ValueIs(m.store, m.frames[n].key, m.frames[n].expected)
    requires forall id :: id in m.frames[n].pending ==> id in m.store.active
    ensures Run(m, Turns(n, |m.frames[n].pending| + 1))
         == m.(frames := m.frames - {n}, calls := m.calls + CallsOf(n, m.frames[n]))
    decreases |m.frames[n].pending|
  {
    hide ValueIs, Step;
    var f, k, m1 := m.frames[n], |m.frames[n].pending|, Step(m, Advance(n));
    QuietTurn(m, n);
    RunTurn(m, n, k);
    RunTurn(m1, n, 0);
    if k > 0 {
      QuietTurns(m1, n);
      assert m1.frames - {n} == m.frames - {n};
      assert m1.calls + CallsOf(n, m1.frames[n]) == m.calls + CallsOf(n, f);
    } else {
      assert m.calls + CallsOf(n, f) == m.calls;
    }
  }

  function Called(n: nat, ids: seq<Id>, key: string, expected: string): seq<Call> {
    seq(|ids|, i requires 0 <= i < |ids| => Call(n, ids[i], key, expected))
  }

  lemma {:induction false} CallsOfIs(n: nat, f: Frame)
    ensures CallsOf(n, f) == Called(n, f.pending, f.key, f.expected)
    decreases |f.pending|
  {
    if f.pending != [] {
      CallsOfIs(n, f.(pending := f.pending[1..]));
    }
  }

  /** A notification of a value the key does not hold never begins: at its place in a run nothing happens. */
  lemma StaleNeverBegins(m: Machine, actions: seq<Action>, b: nat, key: string, expected: string)
    requires b < |actions| && actions[b] == Begin(key, expected)
    requires var values := Run(m, actions[..b]).store.values; !(key in values && values[key] == expected)
    ensures Run(m, actions[..b + 1]) == Run(m, actions[..b])
  {
    RunOneMore(m, actions, b);
  }

  /** Begun and left alone, it calls the key's whole bucket, in order. */
  lemma QuietNotification(m: Machine, key: string, expected: string)
    requires MachineOk(m) && key in m.store.values && m.store.values[key] == expected
    ensures var bucket := if key in m.store.buckets then m.store.buckets[key] else [];
            Run(m, [Begin(key, expected)] + Turns(m.nextFrame, |bucket| + 1))
            == m.(frames := m.frames - {m.nextFrame}, nextFrame := m.nextFrame + 1,
                  calls := m.calls + Called(m.nextFrame, bucket, key, expected))
  {
    var n, bucket := m.nextFrame, if key in m.store.buckets then m.store.buckets[key] else [];
    var begun, turns := Step(m, Begin(key, expected)), Turns(n, |bucket| + 1);
    BucketIsActive(m, key);
    hide MachineOk, Turns, Visit;
    assert ([Begin(key, expected)] + turns)[1..] == turns;
    assert begun == m.(frames := m.frames[n := Frame(key, expected, bucket)], nextFrame := n + 1);
    QuietTurns(begun, n);
    CallsOfIs(n, Frame(key, expected, bucket));
    assert m.frames[n := Frame(key, expected, bucket)] - {n} == m.frames - {n};
  }

  lemma BucketIsActive(m: Machine, key: string)
    requires MachineOk(m)
    ensures key in m.store.buckets ==> forall id :: id in m.store.buckets[key] ==> id in m.store.active
  {
    hide StoreOk, FrameOk, CallOk;
    if key in m.store.buckets {
      forall id | id in m.store.buckets[key] ensures id in m.store.active {
        ListedIsActive(m.store, key, id);
      }
    }
  }

  lemma ListedIsActive(s: Store, key: string, id: Id)
    requires StoreOk(s) && key in s.buckets && id in s.buckets[key]
    ensures id in s.active
  {
    assert Holds(s.buckets, key, id);
  }

  lemma QuietTurn(m: Machine, n: nat)
    requires n in m.frames && ValueIs(m.store, m.frames[n].key, m.frames[n].expected)
    requires forall id :: id in m.frames[n].pending ==> id in m.store.active
    ensures var f := m.frames[n];
            Step(m, Advance(n)) == if f.pending == [] then m.(frames := m.frames - {n})
                                   else m.(frames := m.frames[n := f.(pending := f.pending[1..])],
                                           calls := m.calls + [Call(n, f.pending[0], f.key, f.expected)])
  {
  }

  lemma RunTurn(m: Machine, n: nat, k: nat)
    ensures Run(m, Turns(n, k + 1)) == Run(Step(m, Advance(n)), Turns(n, k))
    ensures Run(m, Turns(n, 0)) == m
  {
    hide Step;
    assert Turns(n, k + 1)[0] == Advance(n) && Turns(n, k + 1)[1..] == Turns(n, k);
  }

  // ---- Everybody who is due is called ----

  /** How many turns of one notification a list of actions holds. */
  function TurnsIn(actions: seq<Action>, n: nat): nat {
    if actions == [] then 0
    else TurnsIn(actions[..|actions| - 1], n) + if actions[|actions| - 1] == Advance(n) then 1 else 0
  }

  /** The key holds the value before the `i`-th action of the run. */
  predicate HeldAt(m: Machine, actions: seq<Action>, i: nat, key: string, expected: string)
    requires i <= |actions|
  {
    var values := Run(m, actions[..i]).store.values;
    key in values && values[key] == expected
  }

  /** The action at `b` starts a notification, and the key holds the announced value then and at each of its turns. */
  predicate Undisturbed(m: Machine, actions: seq<Action>, b: nat, key: string, expected: string) {
    && b < |actions| && actions[b] == Begin(key, expected) && HeldAt(m, actions, b, key, expected)
    && var n := Run(m, actions[..b]).nextFrame;
       forall i :: b < i < |actions| && actions[i] == Advance(n) ==> HeldAt(m, actions, i, key, expected)
  }

  /** The bucket of the key when the notification starts. */
  function BucketAt(m: Machine, actions: seq<Action>, b: nat, key: string): seq<Id>
    requires b <= |actions|
  {
    var buckets := Run(m, actions[..b]).store.buckets;
    if key in buckets then buckets[key] else []
  }

  lemma {:induction false} RunOneMore(m: Machine, actions: seq<Action>, i: nat)
    requires i < |actions|
    ensures Run(m, actions[..i + 1]) == Step(Run(m, actions[..i]), actions[i])
    decreases i
  {
    hide Step;
    if i == 0 {
      assert actions[..1][1..] == [] && actions[..0] == [];
    } else {
      RunOneMore(Step(m, actions[0]), actions[1..], i - 1);
      assert actions[..i + 1][1..] == actions[1..][..i] && actions[..i][1..] == actions[1..][..i - 1];
    }
  }

  lemma TurnsOneMore(actions: seq<Action>, b: nat, i: nat, n: nat)
    requires b <= i < |actions|
    ensures TurnsIn(actions[b..i + 1], n) == TurnsIn(actions[b..i], n) + if actions[i] == Advance(n) then 1 else 0
  {
    var a := actions[b..i + 1];
    assert a[..|a| - 1] == actions[b..i] && a[|a| - 1] == actions[i];
  }

  /** After `t` turns a notification is at the `t`-th listener of the bucket it started with; one turn more ends it. */
  lemma {:induction false} FrameAt(m: Machine, actions: seq<Action>, b: nat, i: nat, key: string, expected: string)
    requires Undisturbed(m, actions, b, key, expected) && b < i <= |actions|
    ensures var n, bucket := Run(m, actions[..b]).nextFrame, BucketAt(m, actions, b, key);
            var t, now := TurnsIn(actions[b + 1..i], n), Run(m, actions[..i]);
            && n < now.nextFrame && (n in now.frames <==> t <= |bucket|)
            && (t <= |bucket| ==> now.frames[n] == Frame(key, expected, bucket[t..]))
    decreases i
  {
    hide Run, TurnsIn, SetValue, Subscribed, Unsubscribed, Forgotten;
    var n, bucket := Run(m, actions[..b]).nextFrame, BucketAt(m, actions, b, key);
    RunOneMore(m, actions, i - 1);
    if i == b + 1 {
      NoTurns(actions, i, n);
      assert bucket[0..] == bucket;
    } else {
      FrameAt(m, actions, b, i - 1, key, expected);
      TurnsOneMore(actions, b + 1, i - 1, n);
      var t := TurnsIn(actions[b + 1..i - 1], n);
      assert t < |bucket| ==> bucket[t..][1..] == bucket[t + 1..];
    }
  }

  lemma NoTurns(actions: seq<Action>, i: nat, n: nat)
    requires i <= |actions|
    ensures TurnsIn(actions[i..i], n) == 0
  {
    assert actions[i..i] == [];
  }

  /** The `k`-th turn of a notification in a list of actions. */
  lemma {:induction false} NthTurn(actions: seq<Action>, b: nat, i: nat, n: nat, k: nat) returns (t: nat)
    requires b <= i <= |actions| && k < TurnsIn(actions[b..i], n)
    ensures b <= t < i && actions[t] == Advance(n) && TurnsIn(actions[b..t], n) == k
    decreases i
  {
    hide TurnsIn;
    if i == b {
      NoTurns(actions, b, n);
      assert false;
    } else {
      TurnsOneMore(actions, b, i - 1, n);
      if k < TurnsIn(actions[b..i - 1], n) {
        t := NthTurn(actions, b, i - 1, n, k);
      } else {
        t := i - 1;
      }
    }
  }

  /**
   * Over every run: while its key keeps the announced value, a notification ends after one turn for each listener that
   * was subscribed when it began and one more, and every such listener that is still active at its turn is called then,
   * with the announced value, and by this notification never again.
   */
  lemma EveryListenerIsCalled(m: Machine, actions: seq<Action>, b: nat, key: string, expected: string, k: nat)
    returns (t: nat)
    requires MachineOk(m) && Undisturbed(m, actions, b, key, expected)
    requires k < |BucketAt(m, actions, b, key)| && Run(m, actions[..b]).nextFrame !in Run(m, actions).frames
    ensures b < t < |actions| && actions[t] == Advance(Run(m, actions[..b]).nextFrame)
    ensures TurnsIn(actions[b + 1..t], Run(m, actions[..b]).nextFrame) == k
    ensures var n, id := Run(m, actions[..b]).nextFrame, BucketAt(m, actions, b, key)[k];
            var now, calls := Run(m, actions[..t]), Run(m, actions).calls;
            id in now.store.active ==>
              && |now.calls| < |calls| && calls[|now.calls|] == Call(n, id, key, expected)
              && forall c :: 0 <= c < |calls| && calls[c].frame == n && calls[c].id == id ==> c == |now.calls|
  {
    hide Run, TurnsIn, MachineOk, StoreOk;
    var n, bucket := Run(m, actions[..b]).nextFrame, BucketAt(m, actions, b, key);
    assert actions[..|actions|] == actions;
    FrameAt(m, actions, b, |actions|, key, expected);
    t := NthTurn(actions, b + 1, |actions|, n, k);
    FrameAt(m, actions, b, t, key, expected);
    RunOneMore(m, actions, t);
    var now := Run(m, actions[..t]);
    if bucket[k] in now.store.active {
      assert Run(m, actions[..t + 1]).calls == now.calls + [Call(n, bucket[k], key, expected)];
      RunSplits(m, actions, t + 1);
      RunCallsGrow(Run(m, actions[..t + 1]), actions[t + 1..]);
      CalledOnce(m, actions, |now.calls|, n, bucket[k]);
    }
  }

  lemma {:induction false} RunSplits(m: Machine, actions: seq<Action>, i: nat)
    requires i <= |actions|
    ensures Run(m, actions) == Run(Run(m, actions[..i]), actions[i..])
    decreases i
  {
    hide Step;
    if i == 0 {
      assert actions[..0] == [] && actions[0..] == actions;
    } else {
      RunSplits(Step(m, actions[0]), actions[1..], i - 1);
      assert actions[..i][1..] == actions[1..][..i - 1] && actions[1..][i - 1..] == actions[i..];
    }
  }

  lemma CalledOnce(m: Machine, actions: seq<Action>, at: nat, n: nat, id: Id)
    requires MachineOk(m) && at < |Run(m, actions).calls|
    requires Run(m, actions).calls[at].frame == n && Run(m, actions).calls[at].id == id
    ensures forall c :: (0 <= c < |Run(m, actions).calls|
                         && Run(m, actions).calls[c].frame == n && Run(m, actions).calls[c].id == id) ==> c == at
  {
    hide Run, StoreOk;
    RunOk(m, actions);
    var calls := Run(m, actions).calls;
    forall c | 0 <= c < |calls| && calls[c].frame == n && calls[c].id == id ensures c == at {
      assert CallOk(Run(m, actions), c) && CallOk(Run(m, actions), at);
    }
  }

  /** How long a notification lives: exactly one turn for each listener it began with, and one more. */
  lemma EndsInTime(m: Machine, actions: seq<Action>, b: nat, key: string, expected: string)
    requires Undisturbed(m, actions, b, key, expected)
    ensures var n := Run(m, actions[..b]).nextFrame;
            n in Run(m, actions).frames <==>
            TurnsIn(actions[b + 1..], n) <= |BucketAt(m, actions, b, key)|
  {
    hide Run, TurnsIn;
    assert actions[..|actions|] == actions && actions[b + 1..|actions|] == actions[b + 1..];
    FrameAt(m, actions, b, |actions|, key, expected);
  }

  /** Earlier listeners of the bucket have their turns earlier, so the calls come in bucket order. */
  lemma TurnsInOrder(actions: seq<Action>, b: nat, s: nat, t: nat, n: nat)
    requires b <= s < |actions| && b <= t < |actions| && TurnsIn(actions[b..s], n) < TurnsIn(actions[b..t], n)
    ensures s < t
  {
    hide TurnsIn;
    if t <= s {
      TurnsGrow(actions, b, t, s, n);
    }
  }

  lemma {:induction false} TurnsGrow(actions: seq<Action>, b: nat, s: nat, t: nat, n: nat)
    requires b <= s <= t <= |actions|
    ensures TurnsIn(actions[b..s], n) <= TurnsIn(actions[b..t], n)
    decreases t
  {
    hide TurnsIn;
    if s < t {
      TurnsGrow(actions, b, s, t - 1, n);
      TurnsOneMore(actions, b, t - 1, n);
    }
  }

  /** Listeners of a key are listed in the order in which they subscribed. */
  predicate InOrder(buckets: map<string, seq<Id>>, nextId: Id) {
    forall k, i, j :: k in buckets && 0 <= i < j < |buckets[k]| ==> buckets[k][i] < buckets[k][j] < nextId
  }

  lemma {:induction false} DroppedInOrder(bucket: seq<Id>, id: Id)
    requires forall i, j :: 0 <= i < j < |bucket| ==> bucket[i] < bucket[j]
    ensures forall i, j :: 0 <= i < j < |Dropped(bucket, id)| ==> Dropped(bucket, id)[i] < Dropped(bucket, id)[j]
    decreases |bucket|
  {
    if bucket != [] && bucket[0] != id {
      DroppedInOrder(bucket[1..], id);
      var rest := Dropped(bucket[1..], id);
      forall j | 0 <= j < |rest| ensures bucket[0] < rest[j] {
        assert rest[j] in bucket[1..];
      }
    }
  }

  lemma SubscribedInOrder(s: Store, key: string)
    requires StoreOk(s) && InOrder(s.buckets, s.nextId)
    ensures InOrder(Subscribed(s, key).buckets, s.nextId + 1)
  {
    hide Listed;
    var before, after := Bucket(s.buckets, key), Subscribed(s, key).buckets;
    forall i | 0 <= i < |before| ensures before[i] < s.nextId {
      ListedIsActive(s, key, before[i]);
    }
    assert after[key] == before + [s.nextId];
    forall k, i, j | k in after && 0 <= i < j < |after[k]| ensures after[k][i] < after[k][j] < s.nextId + 1 {
      if k != key {
        assert after[k] == s.buckets[k];
      } else if j < |before| {
        assert before == s.buckets[key] && after[key][i] == before[i] && after[key][j] == before[j];
      } else {
        assert after[key][i] == before[i] && after[key][j] == s.nextId;
      }
    }
  }

  lemma UnsubscribedInOrder(s: Store, id: Id)
    requires StoreOk(s) && InOrder(s.buckets, s.nextId)
    ensures InOrder(Unsubscribed(s, id).buckets, s.nextId)
  {
    hide Listed;
    var after := Without(s.buckets, id);
    forall k, i, j | k in after && 0 <= i < j < |after[k]| ensures after[k][i] < after[k][j] < s.nextId {
      DroppedInOrder(s.buckets[k], id);
      assert after[k][j] in s.buckets[k];
      assert Holds(s.buckets, k, after[k][j]);
    }
  }

  lemma ForgottenInOrder(s: Store, document: nat)
    requires InOrder(s.buckets, s.nextId)
    ensures InOrder(Forgotten(s, document).buckets, Forgotten(s, document).nextId)
  {
    hide OwnedBy, Listed;
  }

  lemma StepInOrder(m: Machine, a: Action)
    requires MachineOk(m) && InOrder(m.store.buckets, m.store.nextId)
    ensures InOrder(Step(m, a).store.buckets, Step(m, a).store.nextId)
  {
    hide OwnedBy, FrameOk, CallOk, Visit, Snapshot, StoreOk, Subscribed, Unsubscribed, Forgotten, InOrder;
    match a
    case Subscribe(key) => SubscribedInOrder(m.store, key); SubscribedCounts(m.store, key);
    case Unsubscribe(id) => UnsubscribedInOrder(m.store, id); UnsubscribedCounts(m.store, id);
    case Forget(document) => ForgottenInOrder(m.store, document);
    case _ =>
      assert Step(m, a).store.buckets == m.store.buckets && Step(m, a).store.nextId == m.store.nextId;
  }

  lemma SubscribedCounts(s: Store, key: string)
    ensures Subscribed(s, key).nextId == s.nextId + 1
  {
  }

  lemma UnsubscribedCounts(s: Store, id: Id)
    ensures Unsubscribed(s, id).nextId == s.nextId
  {
  }

  lemma {:induction false} RunInOrder(m: Machine, actions: seq<Action>)
    requires MachineOk(m) && InOrder(m.store.buckets, m.store.nextId)
    ensures InOrder(Run(m, actions).store.buckets, Run(m, actions).store.nextId)
    decreases |actions|
  {
    hide MachineOk, Step, InOrder;
    if actions != [] {
      StepOk(m, actions[0]);
      StepInOrder(m, actions[0]);
      RunInOrder(Step(m, actions[0]), actions[1..]);
    }
  }

  // ---- Who listens after each operation ----

  lemma SubscribedHolds(s: Store, key: string)
    ensures forall k, id :: Holds(Subscribed(s, key).buckets, k, id) <==>
              Holds(s.buckets, k, id) || (k == key && id == s.nextId)
    ensures Subscribed(s, key).values == s.values
  {
    var after := Subscribed(s, key).buckets;
    forall k, id ensures Holds(after, k, id) <==> Holds(s.buckets, k, id) || (k == key && id == s.nextId) {
      if k == key {
        assert id in after[key] <==> id in Bucket(s.buckets, key) || id == s.nextId;
      }
    }
  }

  lemma UnsubscribedHolds(s: Store, id: Id)
    requires StoreOk(s)
    ensures forall k, x :: Holds(Unsubscribed(s, id).buckets, k, x) <==> Holds(s.buckets, k, x) && x != id
    ensures Unsubscribed(s, id).values == s.values
  {
    var after := Unsubscribed(s, id).buckets;
    forall k, x ensures Holds(after, k, x) <==> Holds(s.buckets, k, x) && x != id {
      if k in s.buckets {
        DroppedDistinct(s.buckets[k], id);
        if x == id && Holds(s.buckets, k, id) {
          WithoutIs(s.buckets, k, id);
        }
      }
    }
  }

  lemma ForgottenHolds(s: Store, document: nat)
    ensures forall k, x :: Holds(Forgotten(s, document).buckets, k, x) <==>
              Holds(s.buckets, k, x) && !OwnedBy(k, document)
    ensures forall k :: k in Forgotten(s, document).values <==> k in s.values && !OwnedBy(k, document)
    ensures forall k :: k in Forgotten(s, document).values ==> Forgotten(s, document).values[k] == s.values[k]
  {
    hide OwnedBy;
  }

  /** Which tables of the machine an action that only touches listeners leaves alone. */
  predicate SameNotifications(m: Machine, t: Machine) {
    t.frames == m.frames && t.nextFrame == m.nextFrame && t.calls == m.calls && t.store.values == m.store.values
  }

  /** One turn: a finished or outdated notification ends, otherwise its next listener is called if still active. */
  predicate TurnMeans(m: Machine, n: nat, t: Machine)
    requires n in m.frames
  {
    var f := m.frames[n];
    if f.pending == [] || !(f.key in m.store.values && m.store.values[f.key] == f.expected)
    then t == m.(frames := m.frames - {n})
    else
      && t == m.(frames := m.frames[n := Frame(f.key, f.expected, f.pending[1..])], calls := t.calls)
      && t.calls == m.calls + if f.pending[0] in m.store.active then [Call(n, f.pending[0], f.key, f.expected)] else []
  }

  /** What one step of a run must do. */
  ghost predicate StepMeans(m: Machine, a: Action, t: Machine) {
    match a
    case SetSilent(key, value) => t == m.(store := m.store.(values := m.store.values[key := value]))
    case Subscribe(key) =>
      && SameNotifications(m, t) && t.keys == m.keys[m.store.nextId := key]
      && t.store.nextId == m.store.nextId + 1 && t.store.active == m.store.active + {m.store.nextId}
      && forall k, id :: Holds(t.store.buckets, k, id) <==>
           Holds(m.store.buckets, k, id) || (k == key && id == m.store.nextId)
    case Unsubscribe(gone) =>
      && SameNotifications(m, t) && t.keys == m.keys && t.store.nextId == m.store.nextId
      && t.store.active == m.store.active - {gone}
      && forall k, id :: Holds(t.store.buckets, k, id) <==> Holds(m.store.buckets, k, id) && id != gone
    case Forget(document) =>
      && t.frames == m.frames && t.nextFrame == m.nextFrame && t.calls == m.calls
      && t.keys == m.keys && t.store.nextId == m.store.nextId
      && (forall k, id :: Holds(t.store.buckets, k, id) <==> Holds(m.store.buckets, k, id) && !OwnedBy(k, document))
      && (forall id :: id in t.store.active <==>
            id in m.store.active && !exists k :: OwnedBy(k, document) && Holds(m.store.buckets, k, id))
      && (forall k :: k in t.store.values <==> k in m.store.values && !OwnedBy(k, document))
      && (forall k :: k in t.store.values ==> t.store.values[k] == m.store.values[k])
    case Begin(key, expected) =>
      var bucket := if key in m.store.buckets then m.store.buckets[key] else [];
      t == if key in m.store.values && m.store.values[key] == expected
           then m.(frames := m.frames[m.nextFrame := Frame(key, expected, bucket)], nextFrame := m.nextFrame + 1)
           else m
    case Advance(n) => if n in m.frames then TurnMeans(m, n, t) else t == m
  }

  /** Every step of a run does what it means. */
  lemma StepIsMeant(m: Machine, a: Action)
    requires StoreOk(m.store)
    ensures StepMeans(m, a, Step(m, a))
  {
    hide StoreOk, Without, OwnedBy, Listed;
    match a
    case Subscribe(key) => SubscribedHolds(m.store, key);
    case Unsubscribe(id) => UnsubscribedHolds(m.store, id);
    case Forget(document) => ForgottenHolds(m.store, document); ForgottenActive(m.store, document);
    case _ =>
  }

  lemma ForgottenActive(s: Store, document: nat)
    ensures forall id :: id in Forgotten(s, document).active <==>
              id in s.active && !exists k :: OwnedBy(k, document) && Holds(s.buckets, k, id)
  {
    hide OwnedBy, Listed;
  }

  // ---- The store object ----

  lemma {:induction false} DroppedAt(bucket: seq<Id>, i: nat, id: Id)
    requires i < |bucket| && bucket[i] == id && forall j :: 0 <= j < i ==> bucket[j] != id
    ensures Dropped(bucket, id) == bucket[..i] + bucket[i + 1..]
    decreases |bucket|
  {
    if i > 0 {
      DroppedAt(bucket[1..], i - 1, id);
      assert bucket[..i] == [bucket[0]] + bucket[1..][..i - 1];
      assert bucket[1..][i..] == bucket[i + 1..];
    } else {
      assert bucket[..0] == [];
    }
  }

  lemma ForgetOneBucket(buckets: map<string, seq<Id>>, now: map<string, seq<Id>>, done: set<string>, key: string)
    requires now == buckets - done && key in now && key !in done
    ensures now - {key} == buckets - (done + {key})
    ensures Listed(now - {key}) == Listed(now) - |now[key]|
    ensures IdsUnder(buckets, done + {key}) == IdsUnder(buckets, done) + (set id | id in now[key])
  {
    PositionsSplit(now, key);
    hide Listed;
  }

  class MemoryDataStore {
    var values: map<string, string>
    var listenerBuckets: map<string, seq<Id>>
    var listenerCount: int
    var nextSubscriptionId: Id
    var active: set<Id>

    ghost function Current(): Store
      reads this
    {
      Store(values, listenerBuckets, listenerCount, nextSubscriptionId, active)
    }

    ghost predicate Valid()
      reads this
    {
      StoreOk(Current())
    }

    constructor ()
      ensures Valid() && Current() == START.store
    {
      values, listenerBuckets, listenerCount, nextSubscriptionId, active := map[], map[], 0, 1, {};
      new;
      StartOk();
    }

    method GetString(key: string) returns (r: Option<string>)
      ensures r == if key in values then Some(values[key]) else None
    {
      r := if key in values then Some(values[key]) else None;
    }

    method SetStringSilent(key: string, value: string)
      requires Valid()
      modifies this`values
      ensures Valid() && Current() == SetValue(old(Current()), key, value)
    {
      values := values[key := value];
    }

    method Subscribe(key: string) returns (id: Id)
      requires Valid()
      modifies this`listenerBuckets, this`listenerCount, this`nextSubscriptionId, this`active
      ensures Valid() && Current() == Subscribed(old(Current()), key) && id == old(nextSubscriptionId)
      ensures forall k, x ::
                Holds(listenerBuckets, k, x) <==> Holds(old(listenerBuckets), k, x) || (k == key && x == id)
    {
      SubscribedOk(Current(), key);
      SubscribedHolds(Current(), key);
      id := nextSubscriptionId;
      nextSubscriptionId := nextSubscriptionId + 1;
      var listeners := if key in listenerBuckets then listenerBuckets[key] else [];
      listenerBuckets := listenerBuckets[key := listeners + [id]];
      active := active + {id};
      listenerCount := listenerCount + 1;
    }

    /** Position of the first record with this id, the length when there is none. */
    method FindListener(listeners: seq<Id>, id: Id) returns (at: nat)
      ensures at <= |listeners| && (at < |listeners| ==> listeners[at] == id)
      ensures forall j :: 0 <= j < at ==> listeners[j] != id
    {
      at := 0;
      while at < |listeners| && listeners[at] != id
        invariant at <= |listeners| && forall j :: 0 <= j < at ==> listeners[j] != id
      {
        at := at + 1;
      }
    }

    method Unsubscribe(id: Id)
      requires Valid()
      modifies this`listenerBuckets, this`listenerCount, this`active
      ensures Valid() && Current() == Unsubscribed(old(Current()), id)
      ensures forall k, x :: Holds(listenerBuckets, k, x) <==> Holds(old(listenerBuckets), k, x) && x != id
    {
      hide StoreOk, Without;
      ghost var before := Current();
      UnsubscribedHolds(before, id);
      UnsubscribedOk(before, id);
      var todo := listenerBuckets.Keys;
      while todo != {}
        invariant Current() == before && todo <= listenerBuckets.Keys
        invariant forall k :: k in listenerBuckets && k !in todo ==> !Holds(listenerBuckets, k, id)
      {
        var key :| key in todo;
        todo := todo - {key};
        var listeners := listenerBuckets[key];
        var at := FindListener(listeners, id);
        if at < |listeners| {
          DroppedAt(listeners, at, id);
          HolderFacts(before, key, id);
          active := active - {id};
          listeners := listeners[..at] + listeners[at + 1..];
          listenerCount := listenerCount - 1;
          listenerBuckets := if listeners == [] then listenerBuckets - {key} else listenerBuckets[key := listeners];
          return;
        }
      }
      NoHolder(before, id);
    }

    method ForgetDocument(document: nat)
      requires Valid()
      modifies this`values, this`listenerBuckets, this`listenerCount, this`active
      ensures Valid() && Current() == Forgotten(old(Current()), document)
      ensures forall k, x ::
                Holds(listenerBuckets, k, x) <==> Holds(old(listenerBuckets), k, x) && !OwnedBy(k, document)
      ensures forall k :: k in values <==> k in old(values) && !OwnedBy(k, document)
      ensures forall k :: k in values ==> values[k] == old(values)[k]
    {
      hide StoreOk, OwnedBy, Listed, IdsUnder;
      ghost var before := Current();
      ForgottenHolds(before, document);
      ForgottenOk(before, document);
      NothingForgotten(before, document);
      var todo := values.Keys;
      while todo != {}
        invariant todo <= before.values.Keys
        invariant values == before.values - OwnedKeys(before.values.Keys - todo, document)
        invariant Current() == before.(values := values)
      {
        var key :| key in todo;
        todo := todo - {key};
        if OwnedBy(key, document) {
          values := values - {key};
        }
      }
      assert before.values.Keys - {} == before.values.Keys;
      todo := listenerBuckets.Keys;
      while todo != {}
        invariant todo <= before.buckets.Keys
        invariant values == Forgotten(before, document).values
        invariant listenerBuckets == before.buckets - OwnedKeys(before.buckets.Keys - todo, document)
        invariant active == before.active - IdsUnder(before.buckets, OwnedKeys(before.buckets.Keys - todo, document))
        invariant listenerCount == before.count - (Listed(before.buckets) - Listed(listenerBuckets))
      {
        var key :| key in todo;
        ghost var done := OwnedKeys(before.buckets.Keys - todo, document);
        todo := todo - {key};
        assert OwnedKeys(before.buckets.Keys - todo, document) == if OwnedBy(key, document) then done + {key} else done;
        if OwnedBy(key, document) {
          ForgetOneBucket(before.buckets, listenerBuckets, done, key);
          active := active - set id | id in listenerBuckets[key];
          listenerCount := listenerCount - |listenerBuckets[key]|;
          listenerBuckets := listenerBuckets - {key};
        }
      }
      assert before.buckets.Keys - {} == before.buckets.Keys;
    }

    /** Listeners that call nothing back: all of the bucket is called, in order, or nobody if the value has moved on. */
    method NotifyStringIfValue(key: string, expected: string) returns (called: seq<Id>)
      requires Valid()
      ensures called == if ValueIs(Current(), key, expected) then Bucket(listenerBuckets, key) else []
    {
      called := [];
      if key !in values || values[key] != expected {
        return;
      }
      var listeners := if key in listenerBuckets then listenerBuckets[key] else [];
      for i := 0 to |listeners|
        invariant called == listeners[..i]
      {
        if key !in values || values[key] != expected {
          break;
        }
        assert Holds(listenerBuckets, key, listeners[i]);
        if listeners[i] in active {
          called := called + [listeners[i]];
        }
      }
    }

    method SetString(key: string, value: string) returns (called: seq<Id>)
      requires Valid()
      modifies this`values
      ensures Valid() && Current() == SetValue(old(Current()), key, value)
      ensures called == Bucket(listenerBuckets, key)
    {
      SetStringSilent(key, value);
      called := NotifyStringIfValue(key, value);
    }
  }

  lemma HolderFacts(s: Store, key: string, id: Id)
    requires StoreOk(s) && Holds(s.buckets, key, id)
    ensures id in s.active
    ensures Without(s.buckets, id) == WithBucket(s.buckets, key, Dropped(s.buckets[key], id))
  {
    WithoutIs(s.buckets, key, id);
  }

  lemma NoHolder(s: Store, id: Id)
    requires StoreOk(s) && forall k :: k in s.buckets ==> !Holds(s.buckets, k, id)
    ensures id !in s.active
  {
  }

  lemma NothingForgotten(s: Store, document: nat)
    ensures OwnedKeys({}, document) == {} && IdsUnder(s.buckets, {}) == {}
    ensures s.buckets - {} == s.buckets && s.active - {} == s.active
    ensures s.values - {} == s.values && s.values.Keys - s.values.Keys == {} && s.buckets.Keys - s.buckets.Keys == {}
  {
  }
}
