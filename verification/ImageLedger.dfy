/** The per-document ledger of preloaded images and what it keeps resident in the backend. */
module ImageLedger {

  type DocumentId = nat

  datatype Option<T> = None | Some(value: T)

  /** What identifies an image for the ledger: file source and native source together. */
  datatype Key = Key(primarySrc: string, nativeSrc: nat)

  datatype Resource = Resource(id: string, key: Key, preload: bool)

  datatype Record = Record(resource: Resource, automatic: nat, manual: nat)

  datatype Owner = Automatic | Manual | All

  // ---- A ledger as a finite map ----

  datatype Entry = Entry(automatic: nat, manual: nat, preload: bool)

  function EntryOf(r: Record): Entry {
    Entry(r.automatic, r.manual, r.resource.preload)
  }

  /** Position of the first record for `key`, the length when there is none. */
  function IndexOf(ledger: seq<Record>, key: Key): (r: nat)
    ensures r <= |ledger|
    ensures r < |ledger| ==> ledger[r].resource.key == key
    ensures forall i :: 0 <= i < r ==> ledger[i].resource.key != key
  {
    if ledger == [] || ledger[0].resource.key == key then 0 else 1 + IndexOf(ledger[1..], key)
  }

  function KeysOf(ledger: seq<Record>): set<Key> {
    set i | 0 <= i < |ledger| :: ledger[i].resource.key
  }

  function View(ledger: seq<Record>): map<Key, Entry> {
    map k | k in KeysOf(ledger) :: EntryOf(ledger[IndexOf(ledger, k)])
  }

  predicate DistinctKeys(ledger: seq<Record>) {
    forall i, j :: 0 <= i < j < |ledger| ==> ledger[i].resource.key != ledger[j].resource.key
  }

  /** Every entry is held by somebody. */
  predicate AllHeld(v: map<Key, Entry>) {
    forall k :: k in v ==> v[k].automatic + v[k].manual > 0
  }

  /** Automatic preloading holds an image at most once. */
  predicate AutomaticOnce(v: map<Key, Entry>) {
    forall k :: k in v ==> v[k].automatic <= 1
  }

  predicate LedgerOk(ledger: seq<Record>) {
    DistinctKeys(ledger) && AllHeld(View(ledger))
  }

  // ---- Steps on the map ----

  function Acquire(v: map<Key, Entry>, r: Resource, owner: Owner): map<Key, Entry> {
    var e := if r.key in v then v[r.key] else Entry(0, 0, false);
    v[r.key := Entry(e.automatic + if owner == Automatic then 1 else 0,
                     e.manual + if owner != Automatic then 1 else 0,
                     e.preload || r.preload)]
  }

  function Dropped(e: Entry, owner: Owner): Entry {
    e.(automatic := if owner == All || (owner == Automatic && e.automatic == 0) then 0
                    else if owner == Automatic then e.automatic - 1 else e.automatic,
       manual := if owner == All || (owner == Manual && e.manual == 0) then 0
                 else if owner == Manual then e.manual - 1 else e.manual)
  }

  function Release(v: map<Key, Entry>, key: Key, owner: Owner): map<Key, Entry> {
    if key !in v then v
    else
      var e := Dropped(v[key], owner);
      if e.automatic + e.manual > 0 then v[key := e] else v - {key}
  }

  // ---- Sequence edits seen through the map ----

  lemma ViewAt(ledger: seq<Record>, i: nat)
    requires DistinctKeys(ledger) && i < |ledger|
    ensures ledger[i].resource.key in View(ledger)
    ensures View(ledger)[ledger[i].resource.key] == EntryOf(ledger[i])
  {
    assert IndexOf(ledger, ledger[i].resource.key) == i;
  }

  lemma IndexFound(ledger: seq<Record>, key: Key)
    ensures IndexOf(ledger, key) < |ledger| <==> key in KeysOf(ledger)
    ensures View(ledger).Keys == KeysOf(ledger)
    ensures IndexOf(ledger, key) < |ledger| ==> KeysOf(ledger) + {key} == KeysOf(ledger)
  {
  }

  /** A map that agrees with the ledger record by record is its view. */
  lemma ViewIs(ledger: seq<Record>, m: map<Key, Entry>)
    requires DistinctKeys(ledger) && m.Keys == KeysOf(ledger)
    requires forall i :: 0 <= i < |ledger| ==> m[ledger[i].resource.key] == EntryOf(ledger[i])
    ensures View(ledger) == m
  {
    forall k | k in m ensures View(ledger)[k] == m[k] {
      var i :| 0 <= i < |ledger| && ledger[i].resource.key == k;
      ViewAt(ledger, i);
    }
  }

  lemma DistinctEdits(ledger: seq<Record>, i: nat, r: Record)
    requires DistinctKeys(ledger) && i < |ledger|
    ensures r.resource.key == ledger[i].resource.key ==>
      DistinctKeys(ledger[i := r]) && KeysOf(ledger[i := r]) == KeysOf(ledger)
    ensures DistinctKeys(ledger[..i] + ledger[i + 1..])
    ensures KeysOf(ledger[..i] + ledger[i + 1..]) == KeysOf(ledger) - {ledger[i].resource.key}
  {
    if r.resource.key == ledger[i].resource.key {
      var updated := ledger[i := r];
      assert forall j :: 0 <= j < |ledger| ==> updated[j].resource.key == ledger[j].resource.key;
    }
    var erased := ledger[..i] + ledger[i + 1..];
    forall j | 0 <= j < |ledger| && j != i ensures ledger[j].resource.key in KeysOf(erased) {
      assert erased[if j < i then j else j - 1] == ledger[j];
    }
  }

  lemma ViewUpdate(ledger: seq<Record>, i: nat, r: Record)
    requires DistinctKeys(ledger) && i < |ledger| && r.resource.key == ledger[i].resource.key
    ensures DistinctKeys(ledger[i := r]) && KeysOf(ledger[i := r]) == KeysOf(ledger)
    ensures View(ledger[i := r]) == View(ledger)[r.resource.key := EntryOf(r)]
  {
    DistinctEdits(ledger, i, r);
    var after, m := ledger[i := r], View(ledger)[r.resource.key := EntryOf(r)];
    ViewAt(ledger, i);
    assert View(ledger).Keys == KeysOf(ledger);
    forall j | 0 <= j < |after| ensures m[after[j].resource.key] == EntryOf(after[j]) {
      ViewAt(ledger, j);
      assert j != i ==> after[j] == ledger[j] && ledger[j].resource.key != r.resource.key;
    }
    ViewIs(after, m);
  }

  lemma ViewAppend(ledger: seq<Record>, r: Record)
    requires DistinctKeys(ledger) && r.resource.key !in KeysOf(ledger)
    ensures DistinctKeys(ledger + [r]) && KeysOf(ledger + [r]) == KeysOf(ledger) + {r.resource.key}
    ensures View(ledger + [r]) == View(ledger)[r.resource.key := EntryOf(r)]
  {
    var after, m := ledger + [r], View(ledger)[r.resource.key := EntryOf(r)];
    assert after[|ledger|] == r && forall j :: 0 <= j < |ledger| ==> after[j] == ledger[j];
    assert KeysOf(after) == KeysOf(ledger) + {r.resource.key};
    assert View(ledger).Keys == KeysOf(ledger);
    forall j | 0 <= j < |after| ensures m[after[j].resource.key] == EntryOf(after[j]) {
      if j < |ledger| {
        ViewAt(ledger, j);
      }
    }
    ViewIs(after, m);
  }

  lemma ViewErase(ledger: seq<Record>, i: nat)
    requires DistinctKeys(ledger) && i < |ledger|
    ensures var after := ledger[..i] + ledger[i + 1..];
            && DistinctKeys(after) && KeysOf(after) == KeysOf(ledger) - {ledger[i].resource.key}
            && View(after) == View(ledger) - {ledger[i].resource.key}
  {
    DistinctEdits(ledger, i, ledger[i]);
    var after, m := ledger[..i] + ledger[i + 1..], View(ledger) - {ledger[i].resource.key};
    assert View(ledger).Keys == KeysOf(ledger);
    forall j | 0 <= j < |after| ensures m[after[j].resource.key] == EntryOf(after[j]) {
      var k := if j < i then j else j + 1;
      assert after[j] == ledger[k] && k != i;
      ViewAt(ledger, k);
      assert ledger[k].resource.key != ledger[i].resource.key;
    }
    ViewIs(after, m);
  }

  // ---- The ledger edits ----

  function AddTo(r: Record, preload: bool, owner: Owner): Record {
    Record(r.resource.(preload := r.resource.preload || preload),
           if owner == Automatic then r.automatic + 1 else r.automatic,
           if owner == Automatic then r.manual else r.manual + 1)
  }

  function WithReference(ledger: seq<Record>, r: Resource, owner: Owner): seq<Record> {
    var i := IndexOf(ledger, r.key);
    if i < |ledger| then ledger[i := AddTo(ledger[i], r.preload, owner)]
    else ledger + [Record(r, if owner == Automatic then 1 else 0, if owner == Automatic then 0 else 1)]
  }

  lemma WithReferenceView(ledger: seq<Record>, r: Resource, owner: Owner)
    requires LedgerOk(ledger)
    ensures var after := WithReference(ledger, r, owner);
            LedgerOk(after) && View(after) == Acquire(View(ledger), r, owner) &&
                KeysOf(after) == KeysOf(ledger) + {r.key}
  {
    hide DistinctKeys, View, KeysOf, IndexOf;
    var i := IndexOf(ledger, r.key);
    IndexFound(ledger, r.key);
    if i < |ledger| {
      ViewAt(ledger, i);
      ViewUpdate(ledger, i, AddTo(ledger[i], r.preload, owner));
    } else {
      ViewAppend(ledger, Record(r, if owner == Automatic then 1 else 0, if owner == Automatic then 0 else 1));
    }
  }

  function WithoutReference(ledger: seq<Record>, key: Key, owner: Owner): seq<Record> {
    var i := IndexOf(ledger, key);
    if i == |ledger| then ledger
    else
      var e := Dropped(EntryOf(ledger[i]), owner);
      if e.automatic > 0 || e.manual > 0 then ledger[i := Record(ledger[i].resource, e.automatic, e.manual)]
      else ledger[..i] + ledger[i + 1..]
  }

  lemma WithoutReferenceView(ledger: seq<Record>, key: Key, owner: Owner)
    requires LedgerOk(ledger)
    ensures var after := WithoutReference(ledger, key, owner);
            && LedgerOk(after) && View(after) == Release(View(ledger), key, owner)
            && KeysOf(after) == (if |after| < |ledger| then KeysOf(ledger) - {key} else KeysOf(ledger))
            && (|after| < |ledger| ==> key in KeysOf(ledger))
  {
    hide DistinctKeys, View, KeysOf, IndexOf;
    var i := IndexOf(ledger, key);
    IndexFound(ledger, key);
    if i < |ledger| {
      ViewAt(ledger, i);
      var e := Dropped(EntryOf(ledger[i]), owner);
      if e.automatic > 0 || e.manual > 0 {
        ViewUpdate(ledger, i, Record(ledger[i].resource, e.automatic, e.manual));
      } else {
        ViewErase(ledger, i);
      }
    }
  }

  // ---- Batches ----

  function CountKey(s: seq<Resource>, k: Key): nat {
    if s == [] then 0 else (if s[0].key == k then 1 else 0) + CountKey(s[1..], k)
  }

  predicate AnyPreload(s: seq<Resource>, k: Key) {
    exists i :: 0 <= i < |s| && s[i].key == k && s[i].preload
  }

  function KeysIn(s: seq<Resource>): set<Key> {
    set i | 0 <= i < |s| :: s[i].key
  }

  function BaseEntry(v: map<Key, Entry>, k: Key): Entry {
    if k in v then v[k] else Entry(0, 0, false)
  }

  function HeldEntry(v: map<Key, Entry>, acquired: seq<Resource>, held: seq<Resource>, k: Key): Entry {
    var e := BaseEntry(v, k);
    Entry(e.automatic, e.manual + CountKey(held, k), e.preload || AnyPreload(acquired, k))
  }

  /** `v` after the resources in `acquired` were taken manually and only those in `held` are still held. */
  function Holding(v: map<Key, Entry>, acquired: seq<Resource>, held: seq<Resource>): map<Key, Entry> {
    map k | k in v.Keys + KeysIn(held) :: HeldEntry(v, acquired, held, k)
  }

  lemma CountAppend(s: seq<Resource>, r: Resource, k: Key)
    ensures CountKey(s + [r], k) == CountKey(s, k) + (if r.key == k then 1 else 0)
  {
    if s != [] {
      assert (s + [r])[1..] == s[1..] + [r];
      CountAppend(s[1..], r, k);
    }
  }

  lemma CountPositive(s: seq<Resource>, k: Key)
    ensures CountKey(s, k) > 0 <==> k in KeysIn(s)
  {
    if s != [] {
      CountPositive(s[1..], k);
      if k in KeysIn(s[1..]) {
        var i :| 0 <= i < |s[1..]| && s[1..][i].key == k;
        assert s[i + 1].key == k;
      }
      if k in KeysIn(s) && s[0].key != k {
        var i :| 0 <= i < |s| && s[i].key == k;
        assert s[1..][i - 1].key == k;
      }
    }
  }

  lemma HoldingNothing(v: map<Key, Entry>)
    ensures Holding(v, [], []) == v
  {
    assert v.Keys + KeysIn([]) == v.Keys;
  }

  lemma AnyPreloadAppend(s: seq<Resource>, r: Resource, k: Key)
    ensures AnyPreload(s + [r], k) <==> AnyPreload(s, k) || (r.key == k && r.preload)
  {
    var t := s + [r];
    assert t[|s|] == r && forall i :: 0 <= i < |s| ==> t[i] == s[i];
    if AnyPreload(s, k) {
      var i :| 0 <= i < |s| && s[i].key == k && s[i].preload;
      assert t[i] == s[i];
    }
  }

  lemma AcquireStep(v: map<Key, Entry>, s: seq<Resource>, r: Resource)
    ensures Acquire(Holding(v, s, s), r, Manual) == Holding(v, s + [r], s + [r])
  {
    var a, b := Acquire(Holding(v, s, s), r, Manual), Holding(v, s + [r], s + [r]);
    forall k ensures k in KeysIn(s + [r]) <==> k in KeysIn(s) || k == r.key {
      CountPositive(s, k);
      CountPositive(s + [r], k);
      CountAppend(s, r, k);
    }
    assert a.Keys == b.Keys;
    forall k | k in b ensures a[k] == b[k] {
      CountAppend(s, r, k);
      CountPositive(s, k);
      AnyPreloadAppend(s, r, k);
      if k !in Holding(v, s, s) {
        assert !AnyPreload(s, k);
      }
    }
  }

  lemma CountTail(s: seq<Resource>, j: nat, k: Key)
    requires j < |s|
    ensures CountKey(s[j..], k) == CountKey(s[j + 1..], k) + (if k == s[j].key then 1 else 0)
    ensures k in KeysIn(s[j..]) <==> CountKey(s[j..], k) > 0
    ensures k in KeysIn(s[j + 1..]) <==> CountKey(s[j + 1..], k) > 0
  {
    assert s[j..][1..] == s[j + 1..];
    CountPositive(s[j..], k);
    CountPositive(s[j + 1..], k);
  }

  lemma ReleaseStep(v: map<Key, Entry>, acquired: seq<Resource>, j: nat)
    requires j < |acquired| && AllHeld(v)
    ensures Release(Holding(v, acquired, acquired[j..]), acquired[j].key, Manual)
            == Holding(v, acquired, acquired[j + 1..])
  {
    hide CountKey, KeysIn, AnyPreload;
    var held, rest, key := acquired[j..], acquired[j + 1..], acquired[j].key;
    var h := Holding(v, acquired, held);
    var a, b := Release(h, key, Manual), Holding(v, acquired, rest);
    CountTail(acquired, j, key);
    assert key in h && h[key] == HeldEntry(v, acquired, held, key);
    assert Dropped(h[key], Manual) == HeldEntry(v, acquired, rest, key);
    forall k ensures k in a <==> k in b {
      CountTail(acquired, j, k);
    }
    forall k | k in b ensures a[k] == b[k] {
      CountTail(acquired, j, k);
      assert k != key ==> HeldEntry(v, acquired, held, k) == HeldEntry(v, acquired, rest, k);
    }
  }

  /** The first `n` resources of a list given back manually, in order. */
  function ReleaseFirst(v: map<Key, Entry>, s: seq<Resource>, n: nat): map<Key, Entry>
    requires n <= |s|
  {
    if n == 0 then v else Release(ReleaseFirst(v, s, n - 1), s[n - 1].key, Manual)
  }

  /** Giving back what a batch took, in order, leaves the rest held and in the end every count as before the batch. */
  lemma {:induction false} ReleaseUndoesAcquire(v: map<Key, Entry>, acquired: seq<Resource>, n: nat)
    requires n <= |acquired| && AllHeld(v)
    ensures ReleaseFirst(Holding(v, acquired, acquired), acquired, n) == Holding(v, acquired, acquired[n..])
  {
    hide Release, Holding;
    if n > 0 {
      ReleaseUndoesAcquire(v, acquired, n - 1);
      ReleaseStep(v, acquired, n - 1);
    } else {
      assert acquired[0..] == acquired;
    }
  }

  /** What a failed batch leaves: every count back, but preload flags raised on the way stay raised. */
  lemma RollbackExact(v: map<Key, Entry>, acquired: seq<Resource>)
    ensures Holding(v, acquired, []).Keys == v.Keys
    ensures forall k :: k in v ==>
      Holding(v, acquired, [])[k] == v[k].(preload := v[k].preload || AnyPreload(acquired, k))
    ensures Holding(v, acquired, []) == v <==>
            forall i :: 0 <= i < |acquired| && acquired[i].preload && acquired[i].key in v ==>
              v[acquired[i].key].preload
  {
    var h := Holding(v, acquired, []);
    assert v.Keys + KeysIn([]) == v.Keys;
    if forall i :: 0 <= i < |acquired| && acquired[i].preload && acquired[i].key in v ==> v[acquired[i].key].preload {
      assert h == v;
    }
    if h == v {
      forall i | 0 <= i < |acquired| && acquired[i].preload && acquired[i].key in v
        ensures v[acquired[i].key].preload
      {
        assert AnyPreload(acquired, acquired[i].key);
      }
    }
  }

  // ---- Residency ----

  function Holders(ledgers: map<DocumentId, seq<Record>>, k: Key): set<DocumentId> {
    set d | d in ledgers && k in KeysOf(ledgers[d])
  }

  /** The backend holds an image once for every document whose ledger has a record of it. */
  ghost predicate ResidencyOk(ledgers: map<DocumentId, seq<Record>>, resident: multiset<Key>) {
    forall k :: resident[k] == |Holders(ledgers, k)|
  }

  /** Changing one document's ledger moves only that document in and out of the holders. */
  lemma HoldersChange(ledgers: map<DocumentId, seq<Record>>, d: DocumentId, l: seq<Record>, k: Key)
    requires d in ledgers
    ensures var was, now := Holders(ledgers, k), Holders(ledgers[d := l], k);
            && (k in KeysOf(ledgers[d]) <==> d in was)
            && now == (if k in KeysOf(l) then was + {d} else was - {d})
            && |now| == |was| + (if k in KeysOf(l) && d !in was then 1 else 0)
                              - (if k !in KeysOf(l) && d in was then 1 else 0)
  {
    hide KeysOf;
    var was := Holders(ledgers, k);
    assert Holders(ledgers[d := l], k) == if k in KeysOf(l) then was + {d} else was - {d};
  }

  lemma ResidencyGain(ledgers: map<DocumentId, seq<Record>>, resident: multiset<Key>, d: DocumentId, l: seq<Record>,
                      k: Key)
    requires ResidencyOk(ledgers, resident) && d in ledgers
    requires KeysOf(l) == KeysOf(ledgers[d]) + {k} && k !in KeysOf(ledgers[d])
    ensures ResidencyOk(ledgers[d := l], resident + multiset{k})
  {
    hide KeysOf, Holders;
    forall x ensures (resident + multiset{k})[x] == |Holders(ledgers[d := l], x)| {
      HoldersChange(ledgers, d, l, x);
    }
  }

  lemma ResidencyLoss(ledgers: map<DocumentId, seq<Record>>, resident: multiset<Key>, d: DocumentId, l: seq<Record>,
                      k: Key)
    requires ResidencyOk(ledgers, resident) && d in ledgers
    requires KeysOf(l) == KeysOf(ledgers[d]) - {k} && k in KeysOf(ledgers[d])
    ensures ResidencyOk(ledgers[d := l], resident - multiset{k})
  {
    hide KeysOf, Holders;
    forall x ensures (resident - multiset{k})[x] == |Holders(ledgers[d := l], x)| {
      HoldersChange(ledgers, d, l, x);
    }
  }

  lemma ResidencySame(ledgers: map<DocumentId, seq<Record>>, resident: multiset<Key>, d: DocumentId, l: seq<Record>)
    requires ResidencyOk(ledgers, resident) && d in ledgers && KeysOf(l) == KeysOf(ledgers[d])
    ensures ResidencyOk(ledgers[d := l], resident)
  {
    hide KeysOf, Holders;
    forall x ensures resident[x] == |Holders(ledgers[d := l], x)| {
      HoldersChange(ledgers, d, l, x);
    }
  }

  lemma ResidencyUnique(ledgers: map<DocumentId, seq<Record>>, a: multiset<Key>, b: multiset<Key>)
    requires ResidencyOk(ledgers, a) && ResidencyOk(ledgers, b)
    ensures a == b
  {
    assert forall k :: a[k] == b[k];
  }

  // ---- Acquire and release against each other ----

  /** Automatic preloading guarded by "no automatic reference yet" keeps the count at one at most. */
  lemma AutomaticStaysOnce(v: map<Key, Entry>, r: Resource, owner: Owner, key: Key, dropped: Owner)
    ensures AutomaticOnce(v) && (owner == Manual || BaseEntry(v, r.key).automatic == 0)
            ==> AutomaticOnce(Acquire(v, r, owner))
    ensures AutomaticOnce(v) ==> AutomaticOnce(Release(v, key, dropped))
    ensures AutomaticOnce(v) ==> AutomaticOnce(TakenOnce(v, r)) && AutomaticOnce(RaiseFlag(v, r))
  {
  }

  /** Taking or giving back a list keeps automatic counts at one at most, also with the refresh that follows. */
  lemma BatchesStayOnce(v: map<Key, Entry>, w: map<Key, Entry>, s: seq<Resource>, held: seq<Resource>, n: nat,
                        keys: set<Key>)
    requires n <= |s|
    ensures AutomaticOnce(v) ==> AutomaticOnce(Holding(v, s, held)) && AutomaticOnce(ReleaseFirst(v, s, n))
    ensures AutomaticOnce(v) && (Grown(Holding(v, s, held), w, keys) || Grown(ReleaseFirst(v, s, n), w, keys))
            ==> AutomaticOnce(w)
  {
    if n > 0 {
      BatchesStayOnce(v, w, s, held, n - 1, keys);
    }
  }

  lemma GrownStaysOnce(v: map<Key, Entry>, w: map<Key, Entry>, keys: set<Key>)
    requires Grown(v, w, keys)
    ensures AutomaticOnce(v) ==> AutomaticOnce(w)
  {
  }

  /** An automatic reference taken and given back leaves every count; only the preload flag can stay raised. */
  lemma AutomaticUndone(v: map<Key, Entry>, r: Resource)
    requires AllHeld(v) && BaseEntry(v, r.key).automatic == 0
    ensures Release(Acquire(v, r, Automatic), r.key, Automatic) == RaiseFlag(v, r)
  {
  }

  function RaiseFlag(v: map<Key, Entry>, r: Resource): map<Key, Entry> {
    if r.key in v then v[r.key := v[r.key].(preload := v[r.key].preload || r.preload)] else v
  }

  predicate DistinctDocuments(s: seq<DocumentId>) {
    forall i, j :: 0 <= i < j < |s| ==> s[i] != s[j]
  }

  function Resolved(requests: seq<Option<Resource>>): (r: seq<Resource>)
    requires forall i :: 0 <= i < |requests| ==> requests[i].Some?
    ensures |r| == |requests| && forall i :: 0 <= i < |r| ==> r[i] == requests[i].value
  {
    seq(|requests|, i requires 0 <= i < |requests| => requests[i].value)
  }

  datatype BatchResult = Done | DocumentNotLoaded | Failed

  class ImageRuntime {
    var ledgers: map<DocumentId, seq<Record>>
    var resident: multiset<Key>
    var globalImages: map<string, Resource>
    var nextDocument: DocumentId
    var refusals: nat

    constructor ()
      ensures Valid() && ledgers == map[] && resident == multiset{} && globalImages == map[] && refusals == 0
    {
      ledgers, resident, globalImages, nextDocument := map[], multiset{}, map[], 1;
      refusals := 0;
      new;
      assert forall k :: Holders(ledgers, k) == {};
    }

    ghost predicate Valid()
      reads this
    {
      (forall d :: d in ledgers ==> LedgerOk(ledgers[d])) && ResidencyOk(ledgers, resident)
    }

    /** In every document no image has more than one automatic reference. */
    ghost predicate HeldOnce()
      reads this`ledgers
    {
      forall d :: d in ledgers ==> AutomaticOnce(View(ledgers[d]))
    }

    /** Document ids are issued once. */
    predicate IdsIssued()
      reads this
    {
      forall d :: d in ledgers ==> d < nextDocument
    }

    function ViewOf(d: DocumentId): map<Key, Entry>
      requires d in ledgers
      reads this
    {
      View(ledgers[d])
    }

    /** The other documents' ledgers are what they were. */
    twostate predicate OnlyTouched(d: DocumentId)
      reads this
    {
      d in old(ledgers) && d in ledgers && ledgers == old(ledgers)[d := ledgers[d]] && globalImages == old(globalImages)
    }

    method BackendPreload(key: Key) returns (ok: bool)
      modifies this`resident, this`refusals
      ensures resident == old(resident) + if ok then multiset{key} else multiset{}
      ensures refusals == old(refusals) + if ok then 0 else 1
    {
      ok := *;
      if ok {
        resident := resident + multiset{key};
      } else {
        refusals := refusals + 1;
      }
    }

    method BackendRelease(key: Key)
      modifies this`resident
      ensures resident == old(resident) - multiset{key}
    {
      resident := resident - multiset{key};
    }

    /** Takes one reference; only an image without a record reaches the backend, and only that can fail. */
    method PreloadForTree(d: DocumentId, r: Resource, owner: Owner) returns (ok: bool)
      requires Valid() && d in ledgers && owner != All
      modifies this`ledgers, this`resident, this`refusals
      ensures Valid() && OnlyTouched(d)
      ensures ok ==> ViewOf(d) == Acquire(old(ViewOf(d)), r, owner)
      ensures !ok ==> ledgers == old(ledgers) && resident == old(resident) && r.key !in ViewOf(d)
      ensures refusals == old(refusals) + if ok then 0 else 1
    {
      hide DistinctKeys, View, AllHeld, KeysOf, Acquire;
      var ledger := ledgers[d];
      WithReferenceView(ledger, r, owner);
      var i := IndexOf(ledger, r.key);
      if i < |ledger| {
        IndexFound(ledger, r.key);
        ResidencySame(ledgers, resident, d, WithReference(ledger, r, owner));
        ledgers := ledgers[d := ledger[i := AddTo(ledger[i], r.preload, owner)]];
        return true;
      }
      IndexFound(ledger, r.key);
      ok := BackendPreload(r.key);
      if !ok {
        return;
      }
      ResidencyGain(ledgers, old(resident), d, WithReference(ledger, r, owner), r.key);
      var record := Record(r, if owner == Automatic then 1 else 0, if owner == Automatic then 0 else 1);
      ledgers := ledgers[d := ledger + [record]];
    }

    /** Drops references; the backend lets go exactly when the last one is gone. */
    method ReleaseFromTree(d: DocumentId, key: Key, owner: Owner)
      requires Valid() && d in ledgers
      modifies this`ledgers, this`resident
      ensures Valid() && OnlyTouched(d)
      ensures ViewOf(d) == Release(old(ViewOf(d)), key, owner)
      ensures old(HeldOnce()) ==> HeldOnce()
    {
      hide DistinctKeys, View, AllHeld, LedgerOk, ResidencyOk, KeysOf, Release, Dropped, AutomaticOnce;
      var ledger := ledgers[d];
      AutomaticStaysOnce(View(ledger), Resource("", key, false), Manual, key, owner);
      WithoutReferenceView(ledger, key, owner);
      var i := IndexOf(ledger, key);
      if i == |ledger| {
        return;
      }
      var e := Dropped(EntryOf(ledger[i]), owner);
      if e.automatic > 0 || e.manual > 0 {
        ResidencySame(ledgers, resident, d, WithoutReference(ledger, key, owner));
        ledgers := ledgers[d := ledger[i := Record(ledger[i].resource, e.automatic, e.manual)]];
        return;
      }
      ResidencyLoss(ledgers, resident, d, WithoutReference(ledger, key, owner), key);
      BackendRelease(key);
      ledgers := ledgers[d := ledger[..i] + ledger[i + 1..]];
    }

    /** Lets go of every record, as unload and a failed load do. */
    method ReleaseTree(d: DocumentId)
      requires Valid() && d in ledgers
      modifies this`ledgers, this`resident
      ensures Valid() && OnlyTouched(d) && ledgers[d] == []
      ensures old(HeldOnce()) ==> HeldOnce()
    {
      var ledger := ledgers[d];
      assert ledgers[d := ledger[0..]] == ledgers;
      for i := 0 to |ledger|
        invariant ledgers == old(ledgers) && globalImages == old(globalImages)
        invariant ResidencyOk(ledgers[d := ledger[i..]], resident)
      {
        var rest := ledgers[d := ledger[i..]];
        DropFirst(ledger, i);
        ResidencyLoss(rest, resident, d, ledger[i + 1..], ledger[i].resource.key);
        assert rest[d := ledger[i + 1..]] == ledgers[d := ledger[i + 1..]];
        BackendRelease(ledger[i].resource.key);
      }
      assert ledger[|ledger|..] == [];
      ledgers := ledgers[d := []];
    }

    /** The load-time pass: every preload resource is held automatically, or nothing is held at all. */
    method PreloadTree(d: DocumentId, images: seq<Resource>) returns (ok: bool)
      requires Valid() && d in ledgers
      modifies this`ledgers, this`resident, this`refusals
      ensures Valid() && OnlyTouched(d)
      ensures !ok ==> ledgers[d] == []
      ensures ok && old(ledgers[d]) == [] ==> LoadedTo(ViewOf(d), Collected(images, |images|))
      ensures old(HeldOnce()) && old(ledgers[d]) == [] ==> HeldOnce()
      ensures refusals == old(refusals) + if ok then 0 else 1
    {
      hide DistinctKeys, AllHeld, LedgerOk, Holders, View, KeysOf, ResidencyOk, PreloadKeys, Acquire, AutomaticOnce,
        LoadedTo, Collected, DistinctResources;
      var resources := CollectImageResources(images);
      LoadedNone(resources);
      for i := 0 to |resources|
        invariant Valid() && OnlyTouched(d) && refusals == old(refusals)
        invariant old(ledgers[d]) == [] ==> LoadedTo(ViewOf(d), resources[..i])
      {
        assert resources[..i + 1][..i] == resources[..i];
        if !resources[i].preload {
          LoadedSkip(ViewOf(d), resources, i);
          continue;
        }
        ghost var v := ViewOf(d);
        var done := PreloadForTree(d, resources[i], Automatic);
        if !done {
          LoadedIsOnce(v, resources[..i]);
          ReleaseTree(d);
          return false;
        }
        if LoadedTo(v, resources[..i]) {
          LoadedStep(v, resources, i);
        }
      }
      assert resources[..|resources|] == resources;
      LoadedIsOnce(ViewOf(d), resources);
      return true;
    }

    /** The loaded ones among some documents, in the order of the table's iteration. */
    method Documents(among: set<DocumentId>) returns (documents: seq<DocumentId>)
      ensures DistinctDocuments(documents) && forall d :: d in documents <==> d in ledgers && d in among
    {
      documents := [];
      var todo := ledgers.Keys;
      while todo != {}
        invariant todo <= ledgers.Keys && DistinctDocuments(documents)
        invariant forall d :: d in documents <==> d in ledgers && d in among && d !in todo
        decreases todo
      {
        var d :| d in todo;
        todo := todo - {d};
        if d in among {
          documents := documents + [d];
        }
      }
    }

    /** The document's own images and then the global ones, in the order of the table's iteration. */
    method ImagesFor(own: seq<Resource>) returns (all: seq<Resource>)
      ensures AllImages(own, globalImages, all)
    {
      all := own;
      var todo := globalImages.Keys;
      while todo != {}
        invariant todo <= globalImages.Keys && own <= all
        invariant forall r ::
                    r in all[|own|..] <==> exists id :: id in globalImages && id !in todo && globalImages[id] == r
        decreases todo
      {
        var id :| id in todo;
        todo := todo - {id};
        ghost var before := all;
        all := all + [globalImages[id]];
        assert all[|own|..] == before[|own|..] + [globalImages[id]];
      }
    }

    /** The images of every node built, in order; the first refusal ends it. */
    method PreloadForNodes(d: DocumentId, nodes: seq<seq<Key>>) returns (ok: bool)
      requires Valid() && d in ledgers
      modifies this`ledgers, this`resident, this`refusals
      ensures Valid() && OnlyTouched(d)
      ensures Grown(old(ViewOf(d)), ViewOf(d), ShownBy(nodes))
      ensures ok ==> ViewOf(d) == Refreshed(old(ViewOf(d)), ShownBy(nodes))
      ensures old(HeldOnce()) ==> HeldOnce()
      ensures refusals == old(refusals) + if ok then 0 else 1
    {
      hide DistinctKeys, View, LedgerOk, ResidencyOk, AutomaticOnce, Refreshed, ShownBy;
      ghost var v := ViewOf(d);
      GrownSelf(v);
      ok := true;
      for i := 0 to |nodes|
        invariant Valid() && OnlyTouched(d) && ok && refusals == old(refusals)
        invariant Grown(v, ViewOf(d), ShownBy(nodes))
        invariant forall n, j :: 0 <= n < i && 0 <= j < |nodes[n]| ==> nodes[n][j] in ViewOf(d)
      {
        ok := EnsureNodeImages(d, nodes, i, v);
        if !ok {
          GrownStaysOnce(v, ViewOf(d), ShownBy(nodes));
          return;
        }
      }
      GrownFully(v, ViewOf(d), nodes);
      GrownStaysOnce(v, ViewOf(d), ShownBy(nodes));
    }

    /**
     * What loading does to the ledgers. `valid` says whether the resource references are valid and `built` whether the
     * eager screens can be built apart from their images, which `nodes` lists; a failure takes the document out again.
     */
    method LoadDocument(own: seq<Resource>, valid: bool, nodes: seq<seq<Key>>, built: bool)
      returns (r: Option<DocumentId>, ghost all: seq<Resource>)
      requires Valid() && IdsIssued()
      modifies this`ledgers, this`resident, this`refusals, this`nextDocument
      ensures Valid() && IdsIssued() && nextDocument == old(nextDocument) + 1 && AllImages(own, globalImages, all)
      ensures r.None? ==> ledgers == old(ledgers) && resident == old(resident)
      ensures r.Some? ==>
        && r.value == old(nextDocument) && r.value in ledgers && ledgers == old(ledgers)[r.value := ledgers[r.value]]
        && valid && built && LoadedFor(ViewOf(r.value), all, nodes)
      ensures old(HeldOnce()) ==> HeldOnce()
      ensures old(refusals) <= refusals && (valid && built && refusals == old(refusals) ==> r.Some?)
    {
      hide DistinctKeys, View, LedgerOk, ResidencyOk, AutomaticOnce, LoadedFor, AllImages;
      var d := nextDocument;
      nextDocument := nextDocument + 1;
      EmptyLedger();
      EntersEmpty(ledgers, resident, d);
      ledgers := ledgers[d := []];
      var images := ImagesFor(own);
      all := images;
      var ok := valid;
      if ok {
        ok := Populate(d, images, nodes);
      }
      if ok && built {
        return Some(d), all;
      }
      var unloaded := UnloadDocument(d);
      assert ledgers == old(ledgers);
      ResidencyUnique(ledgers, resident, old(resident));
      r := None;
    }

    /** The two passes of load and update over an empty ledger: the listed images first, then those of the nodes. */
    method Populate(d: DocumentId, images: seq<Resource>, nodes: seq<seq<Key>>) returns (ok: bool)
      requires Valid() && d in ledgers && ledgers[d] == []
      modifies this`ledgers, this`resident, this`refusals
      ensures Valid() && OnlyTouched(d)
      ensures ok ==> LoadedFor(ViewOf(d), images, nodes)
      ensures !ok ==> ledgers[d] == [] || PartlyLoadedFor(ViewOf(d), images, nodes)
      ensures old(HeldOnce()) ==> HeldOnce()
      ensures refusals == old(refusals) + if ok then 0 else 1
    {
      hide DistinctKeys, View, LedgerOk, ResidencyOk, AutomaticOnce, Refreshed, ShownBy, Grown, LoadedTo, Collected;
      ok := PreloadTree(d, images);
      if ok {
        ghost var v := ViewOf(d);
        ok := PreloadForNodes(d, nodes);
      }
    }

    /** Unloading ends every record and its residency; an unknown document changes nothing. */
    method UnloadDocument(d: DocumentId) returns (found: bool)
      requires Valid()
      modifies this`ledgers, this`resident
      ensures Valid() && ledgers == old(ledgers) - {d} && (found <==> d in old(ledgers))
      ensures !found ==> resident == old(resident)
      ensures old(HeldOnce()) ==> HeldOnce()
    {
      hide DistinctKeys, View, LedgerOk, ResidencyOk, AutomaticOnce;
      if d !in ledgers {
        assert ledgers - {d} == ledgers;
        return false;
      }
      ReleaseTree(d);
      LeavesEmpty(ledgers, resident, d);
      ledgers := ledgers - {d};
      return true;
    }

    /** What an in-place update does to the ledgers: everything is let go and taken again; a failure is not undone. */
    method ReloadDocument(d: DocumentId, own: seq<Resource>, valid: bool, nodes: seq<seq<Key>>)
      returns (ok: bool, ghost all: seq<Resource>)
      requires Valid()
      modifies this`ledgers, this`resident, this`refusals
      ensures Valid() && AllImages(own, globalImages, all)
      ensures d !in old(ledgers) ==> !ok && ledgers == old(ledgers) && resident == old(resident)
      ensures d in old(ledgers) ==> OnlyTouched(d) && (ok ==> valid && LoadedFor(ViewOf(d), all, nodes))
      ensures d in old(ledgers) && !ok ==> ledgers[d] == [] || (valid && PartlyLoadedFor(ViewOf(d), all, nodes))
      ensures old(HeldOnce()) ==> HeldOnce()
      ensures old(refusals) <= refusals && (d in old(ledgers) && valid && refusals == old(refusals) ==> ok)
    {
      hide DistinctKeys, View, LedgerOk, ResidencyOk, AutomaticOnce, LoadedFor, AllImages, PartlyLoadedFor;
      var images := ImagesFor(own);
      all := images;
      if d !in ledgers {
        return false, all;
      }
      ReleaseTree(d);
      ok := valid;
      if ok {
        ok := Populate(d, images, nodes);
      }
    }

    /** Automatic preload for a node: skipped when not wanted or when the image is held already. */
    method EnsurePreloaded(d: DocumentId, r: Resource, required: bool) returns (ok: bool)
      requires Valid() && d in ledgers
      modifies this`ledgers, this`resident, this`refusals
      ensures Valid() && OnlyTouched(d)
      ensures (!r.preload && !required) || r.key in old(ViewOf(d)) ==>
        ok && ledgers == old(ledgers) && resident == old(resident)
      ensures (r.preload || required) && r.key !in old(ViewOf(d)) ==>
        ViewOf(d) == if ok then old(ViewOf(d))[r.key := Entry(1, 0, r.preload)] else old(ViewOf(d))
      ensures !ok ==> resident == old(resident)
      ensures old(HeldOnce()) ==> HeldOnce()
      ensures refusals == old(refusals) + if ok then 0 else 1
    {
      hide DistinctKeys, View, LedgerOk, ResidencyOk, KeysOf;
      IndexFound(ledgers[d], r.key);
      if !(r.preload || required) || IndexOf(ledgers[d], r.key) < |ledgers[d]| {
        return true;
      }
      ok := PreloadForTree(d, r, Automatic);
    }

    /** Every node showing an image takes the automatic references it lacks; a refusal ends that node's turn only. */
    method RefreshImageReferences(d: DocumentId, nodes: seq<seq<Key>>) returns (refused: bool)
      requires Valid() && d in ledgers
      modifies this`ledgers, this`resident, this`refusals
      ensures Valid() && OnlyTouched(d)
      ensures Grown(old(ViewOf(d)), ViewOf(d), ShownBy(nodes))
      ensures !refused ==> ViewOf(d) == Refreshed(old(ViewOf(d)), ShownBy(nodes)) && ShownHeld(nodes, ViewOf(d))
      ensures old(HeldOnce()) ==> HeldOnce()
      ensures old(refusals) <= refusals && (refused <==> old(refusals) < refusals)
    {
      hide DistinctKeys, View, LedgerOk, ResidencyOk, AutomaticOnce, Refreshed, ShownBy;
      ghost var v := ViewOf(d);
      refused := false;
      GrownSelf(v);
      for i := 0 to |nodes|
        invariant Valid() && OnlyTouched(d)
        invariant old(refusals) <= refusals && (refused <==> old(refusals) < refusals)
        invariant Grown(v, ViewOf(d), ShownBy(nodes))
        invariant !refused ==> forall n, j :: 0 <= n < i && 0 <= j < |nodes[n]| ==> nodes[n][j] in ViewOf(d)
      {
        var done := EnsureNodeImages(d, nodes, i, v);
        refused := refused || !done;
      }
      if !refused {
        GrownFully(v, ViewOf(d), nodes);
      }
      GrownStaysOnce(v, ViewOf(d), ShownBy(nodes));
    }

    method EnsureNodeImages(d: DocumentId, nodes: seq<seq<Key>>, i: nat, ghost v: map<Key, Entry>) returns (ok: bool)
      requires Valid() && d in ledgers && i < |nodes| && Grown(v, ViewOf(d), ShownBy(nodes))
      modifies this`ledgers, this`resident, this`refusals
      ensures Valid() && OnlyTouched(d) && Grown(v, ViewOf(d), ShownBy(nodes))
      ensures old(ViewOf(d)).Keys <= ViewOf(d).Keys
      ensures ok ==> forall j :: 0 <= j < |nodes[i]| ==> nodes[i][j] in ViewOf(d)
      ensures refusals == old(refusals) + if ok then 0 else 1
    {
      hide DistinctKeys, View, LedgerOk, ResidencyOk, AutomaticOnce, Grown;
      for j := 0 to |nodes[i]|
        invariant Valid() && OnlyTouched(d) && Grown(v, ViewOf(d), ShownBy(nodes))
        invariant refusals == old(refusals)
        invariant old(ViewOf(d)).Keys <= ViewOf(d).Keys
        invariant forall l :: 0 <= l < j ==> nodes[i][l] in ViewOf(d)
      {
        GrowOne(v, ViewOf(d), ShownBy(nodes), nodes[i][j]);
        ok := EnsurePreloaded(d, Resource("", nodes[i][j], false), true);
        if !ok {
          return;
        }
      }
      return true;
    }

    method RefreshTrees(documents: seq<DocumentId>, shown: map<DocumentId, seq<seq<Key>>>)
      requires Valid() && DistinctDocuments(documents) && forall i :: 0 <= i < |documents| ==> documents[i] in ledgers
      modifies this`ledgers, this`resident, this`refusals
      ensures Valid() && ledgers.Keys == old(ledgers.Keys) && globalImages == old(globalImages)
      ensures forall d :: d in ledgers && d in documents ==> Grown(old(View(ledgers[d])), ViewOf(d), ShownIn(shown, d))
      ensures forall d :: d in ledgers && d !in documents ==> ledgers[d] == old(ledgers[d])
      ensures refusals == old(refusals) ==>
        forall d :: d in documents && d in shown ==> ShownHeld(shown[d], ViewOf(d))
      ensures old(HeldOnce()) ==> HeldOnce()
      ensures old(refusals) <= refusals
    {
      hide View, LedgerOk, ResidencyOk, Grown, Refreshed, ShownBy, ShownHeld, HeldOnce;
      for i := 0 to |documents|
        invariant (old(HeldOnce()) ==> HeldOnce()) && old(refusals) <= refusals
        invariant Valid() && ledgers.Keys == old(ledgers.Keys) && globalImages == old(globalImages)
        invariant forall d :: d in ledgers && d in documents[..i] ==>
          Grown(old(View(ledgers[d])), ViewOf(d), ShownIn(shown, d))
        invariant forall d :: d in ledgers && d !in documents[..i] ==> ledgers[d] == old(ledgers[d])
        invariant refusals == old(refusals) ==>
          forall d :: d in documents[..i] && d in shown ==> ShownHeld(shown[d], ViewOf(d))
      {
        var d := documents[i];
        assert d !in documents[..i] && documents[..i + 1] == documents[..i] + [d];
        var refused := RefreshImageReferences(d, if d in shown then shown[d] else []);
      }
      assert documents[..|documents|] == documents;
    }

    /**
     * Binding an image node to another source: take the new image first, then let the old one go if nobody needs it.
     */
    method UpdateImageSource(d: DocumentId, previous: Resource, next: Resource, previousNamed: bool, nextNamed: bool,
                             sourceChanged: bool, required: bool, referencedElsewhere: bool)
      returns (ok: bool)
      requires Valid() && d in ledgers
      modifies this`ledgers, this`resident, this`refusals
      ensures Valid() && OnlyTouched(d)
      ensures !ok ==> ledgers == old(ledgers) && resident == old(resident)
      ensures ok ==>
        var taken := if nextNamed && (next.preload || required) && next.key !in old(ViewOf(d))
                     then Acquire(old(ViewOf(d)), next, Automatic) else old(ViewOf(d));
        ViewOf(d) == if previousNamed && sourceChanged && previous.key != next.key && !referencedElsewhere
                     then Release(taken, previous.key, Automatic) else taken
      ensures old(HeldOnce()) ==> HeldOnce()
      ensures refusals == old(refusals) + if ok then 0 else 1
    {
      hide DistinctKeys, View, AllHeld, LedgerOk, Holding, Holders, ResidencyOk, KeysOf, Release, Acquire,
        AutomaticOnce;
      IndexFound(ledgers[d], next.key);
      ghost var v := ViewOf(d);
      AutomaticStaysOnce(v, next, Automatic, previous.key, Automatic);
      AutomaticStaysOnce(Acquire(v, next, Automatic), next, Manual, previous.key, Automatic);
      if nextNamed && (next.preload || required) && IndexOf(ledgers[d], next.key) == |ledgers[d]| {
        var preloaded := PreloadForTree(d, next, Automatic);
        if !preloaded {
          return false;
        }
      }
      if previousNamed && sourceChanged && previous.key != next.key && !referencedElsewhere {
        ReleaseFromTree(d, previous.key, Automatic);
      }
      return true;
    }

    /** Manual preloading of a list: all of it or, counts and residency, none of it. */
    method PreloadImages(d: DocumentId, requests: seq<Option<Resource>>, shown: map<string, seq<seq<Key>>>)
      returns (r: BatchResult, ghost acquired: seq<Resource>)
      requires Valid()
      modifies this`ledgers, this`resident, this`refusals
      ensures Valid() && globalImages == old(globalImages)
      ensures r.DocumentNotLoaded? <==> d !in old(ledgers)
      ensures r.DocumentNotLoaded? ==> ledgers == old(ledgers) && resident == old(resident)
      ensures d in old(ledgers) ==> OnlyTouched(d)
      ensures r.Done? ==>
        && (forall i :: 0 <= i < |requests| ==> requests[i].Some?) && acquired == Resolved(requests)
        && Grown(Holding(old(ViewOf(d)), acquired, acquired), ViewOf(d), AllShown(shown))
        && (refusals == old(refusals) ==>
              forall i :: 0 <= i < |acquired| && acquired[i].id in shown ==>
                ShownHeld(shown[acquired[i].id], ViewOf(d)))
      ensures r.Failed? ==>
        && |acquired| < |requests| && (forall i :: 0 <= i < |acquired| ==> requests[i] == Some(acquired[i]))
        && ViewOf(d) == Holding(old(ViewOf(d)), acquired, [])
        && resident == old(resident)
      ensures old(HeldOnce()) ==> HeldOnce()
      ensures old(refusals) <= refusals
      ensures r.Failed? ==> refusals == old(refusals) + if requests[|acquired|].Some? then 1 else 0
    {
      hide DistinctKeys, View, AllHeld, Holding, Holders, ResidencyOk, KeysOf, Release, Acquire, Grown, ShownFor,
        AllShown;
      hide AutomaticOnce, ShownHeld;
      acquired := [];
      if d !in ledgers {
        return DocumentNotLoaded, acquired;
      }
      ghost var v := ViewOf(d);
      HoldingNothing(v);
      var taken: seq<Resource> := [];
      for i := 0 to |requests|
        invariant Valid() && OnlyTouched(d) && |taken| == i && refusals == old(refusals)
        invariant forall j :: 0 <= j < i ==> requests[j] == Some(taken[j])
        invariant ViewOf(d) == Holding(v, taken, taken)
      {
        if requests[i].None? {
          RollBack(d, taken, v);
          ResidencyRestored(old(ledgers), old(resident), ledgers, resident, d, taken);
          BatchesStayOnce(v, ViewOf(d), taken, [], 0, {});
          return Failed, taken;
        }
        AcquireStep(v, taken, requests[i].value);
        var ok := PreloadForTree(d, requests[i].value, Manual);
        if !ok {
          RollBack(d, taken, v);
          ResidencyRestored(old(ledgers), old(resident), ledgers, resident, d, taken);
          BatchesStayOnce(v, ViewOf(d), taken, [], 0, {});
          return Failed, taken;
        }
        taken := taken + [requests[i].value];
      }
      assert taken == Resolved(requests);
      var refreshed: set<string> := {};
      GrownSelf(ViewOf(d));
      for i := 0 to |taken|
        invariant Valid() && OnlyTouched(d) && old(refusals) <= refusals
        invariant Grown(Holding(v, taken, taken), ViewOf(d), AllShown(shown))
        invariant refreshed == set j | 0 <= j < i :: taken[j].id
        invariant refusals == old(refusals) ==>
          forall id :: id in refreshed && id in shown ==> ShownHeld(shown[id], ViewOf(d))
      {
        if taken[i].id !in refreshed {
          refreshed := refreshed + {taken[i].id};
          var refused := RefreshImages(d, shown, taken[i].id, Holding(v, taken, taken));
        }
      }
      BatchesStayOnce(v, ViewOf(d), taken, taken, 0, AllShown(shown));
      return Done, taken;
    }

    /** One id's turn: the nodes showing that image are refreshed. */
    method RefreshImages(d: DocumentId, shown: map<string, seq<seq<Key>>>, id: string, ghost v: map<Key, Entry>)
      returns (refused: bool)
      requires Valid() && d in ledgers && Grown(v, ViewOf(d), AllShown(shown))
      modifies this`ledgers, this`resident, this`refusals
      ensures Valid() && OnlyTouched(d) && Grown(v, ViewOf(d), AllShown(shown))
      ensures !refused ==> ViewOf(d) == Refreshed(old(ViewOf(d)), ShownFor(shown, id))
      ensures !refused && id in shown ==> ShownHeld(shown[id], ViewOf(d))
      ensures forall nodes :: ShownHeld(nodes, old(ViewOf(d))) ==> ShownHeld(nodes, ViewOf(d))
      ensures old(refusals) <= refusals && (refused <==> old(refusals) < refusals)
    {
      hide DistinctKeys, View, LedgerOk, ResidencyOk, Grown, Refreshed, ShownBy, ShownHeld;
      refused := RefreshImageReferences(d, if id in shown then shown[id] else []);
      assert ShownFor(shown, id) <= AllShown(shown) by {
        ShownOfAll(shown, id);
      }
      GrownChain(v, old(ViewOf(d)), ViewOf(d), AllShown(shown), ShownFor(shown, id));
      GrownHolds(old(ViewOf(d)), ViewOf(d), ShownFor(shown, id));
    }

    /** Gives back every acquired resource in the order it was taken. */
    method RollBack(d: DocumentId, taken: seq<Resource>, ghost v: map<Key, Entry>)
      requires Valid() && d in ledgers && AllHeld(v) && ViewOf(d) == Holding(v, taken, taken)
      modifies this`ledgers, this`resident
      ensures Valid() && OnlyTouched(d) && ViewOf(d) == Holding(v, taken, [])
    {
      hide DistinctKeys, View, AllHeld, LedgerOk, Holding, Holders, ResidencyOk, KeysOf, Release;
      assert taken[0..] == taken;
      for j := 0 to |taken|
        invariant Valid() && OnlyTouched(d)
        invariant ViewOf(d) == Holding(v, taken, taken[j..])
      {
        ReleaseStep(v, taken, j);
        ReleaseFromTree(d, taken[j].key, Manual);
      }
      assert taken[|taken|..] == [];
    }

    method ResolveAll(requests: seq<Option<Resource>>) returns (r: Option<seq<Resource>>)
      ensures r.None? <==> exists i :: 0 <= i < |requests| && requests[i].None?
      ensures r.Some? ==> r.value == Resolved(requests)
    {
      var resources: seq<Resource> := [];
      for i := 0 to |requests|
        invariant |resources| == i && forall j :: 0 <= j < i ==> requests[j] == Some(resources[j])
      {
        if requests[i].None? {
          return None;
        }
        resources := resources + [requests[i].value];
      }
      assert resources == Resolved(requests);
      r := Some(resources);
    }

    /** Manual release of a list: nothing happens unless every id resolves. */
    method ReleasePreloadedImages(d: DocumentId, requests: seq<Option<Resource>>, shown: map<string, seq<seq<Key>>>)
      returns (r: BatchResult, refused: bool)
      requires Valid()
      modifies this`ledgers, this`resident, this`refusals
      ensures Valid() && globalImages == old(globalImages)
      ensures r.DocumentNotLoaded? <==> d !in old(ledgers)
      ensures r.Failed? <==> d in old(ledgers) && exists i :: 0 <= i < |requests| && requests[i].None?
      ensures !r.Done? ==> ledgers == old(ledgers) && resident == old(resident)
      ensures r.Done? ==> OnlyTouched(d)
      ensures r.Done? ==>
        Grown(ReleaseFirst(old(ViewOf(d)), Resolved(requests), |requests|), ViewOf(d), AllShown(shown))
      ensures r.Done? && !refused ==>
        ViewOf(d) == ReleasedRefreshed(old(ViewOf(d)), Resolved(requests), shown, |requests|)
      ensures old(HeldOnce()) ==> HeldOnce()
      ensures old(refusals) <= refusals && (refused <==> old(refusals) < refusals)
    {
      hide DistinctKeys, View, AllHeld, LedgerOk, Holders, ResidencyOk, KeysOf, Release, Grown, ShownFor, AllShown,
        Refreshed, AutomaticOnce;
      refused := false;
      if d !in ledgers {
        return DocumentNotLoaded, refused;
      }
      var resolved := ResolveAll(requests);
      if resolved.None? {
        return Failed, refused;
      }
      var resources := resolved.value;
      ghost var v := ViewOf(d);
      var refreshed: set<string> := {};
      GrownSelf(v);
      for i := 0 to |resources|
        invariant Valid() && OnlyTouched(d)
        invariant Grown(ReleaseFirst(v, resources, i), ViewOf(d), AllShown(shown))
        invariant !refused ==> ViewOf(d) == ReleasedRefreshed(v, resources, shown, i)
        invariant old(refusals) <= refusals && (refused <==> old(refusals) < refusals)
        invariant refreshed == IdsOf(resources, i)
      {
        GrownRelease(ReleaseFirst(v, resources, i), ViewOf(d), AllShown(shown), resources[i].key);
        ReleaseFromTree(d, resources[i].key, Manual);
        if resources[i].id !in refreshed {
          refreshed := refreshed + {resources[i].id};
          var missed := RefreshImages(d, shown, resources[i].id, ReleaseFirst(v, resources, i + 1));
          refused := refused || missed;
        }
      }
      BatchesStayOnce(v, ViewOf(d), resources, [], |resources|, AllShown(shown));
      return Done, refused;
    }

    /** Takes the new resource automatically in every affected document, or in none of them. */
    method PreloadInTrees(r: Resource, affected: seq<DocumentId>) returns (ok: bool)
      requires Valid() && DistinctDocuments(affected) && forall i :: 0 <= i < |affected| ==> affected[i] in ledgers
      modifies this`ledgers, this`resident, this`refusals
      ensures Valid() && ledgers.Keys == old(ledgers.Keys) && globalImages == old(globalImages)
      ensures ok ==> forall d :: d in ledgers ==>
        ViewOf(d) == if d in affected then TakenOnce(old(View(ledgers[d])), r) else old(View(ledgers[d]))
      ensures !ok ==> forall d :: d in ledgers ==>
        ViewOf(d) == old(View(ledgers[d])) || ViewOf(d) == RaiseFlag(old(View(ledgers[d])), r)
      ensures !ok ==> resident == old(resident)
      ensures refusals == old(refusals) + if ok then 0 else 1
    {
      hide DistinctKeys, View, AllHeld, LedgerOk, Holders, ResidencyOk, KeysOf, Release, Acquire, RaiseFlag, BaseEntry,
        TakenOnce, Taking;
      ghost var l0 := ledgers;
      var preloaded: seq<DocumentId> := [];
      TakingStart(r, affected, l0);
      for i := 0 to |affected|
        invariant Valid() && globalImages == old(globalImages) && refusals == old(refusals)
        invariant Taking(r, affected, i, preloaded, l0, ledgers)
      {
        var d := affected[i];
        TakingNext(r, affected, i, preloaded, l0, ledgers);
        var has := HasAutomatic(d, r.key);
        if has {
          continue;
        }
        ghost var l := ledgers;
        var done := PreloadForTree(d, r, Automatic);
        if !done {
          TakingSoFar(r, affected, i, preloaded, l0, ledgers);
          UndoPreloads(r, preloaded, l0, old(resident));
          return false;
        }
        TakingOneMore(r, affected, i, preloaded, l0, l, ledgers);
        preloaded := preloaded + [d];
      }
      TakingEnd(r, affected, preloaded, l0, ledgers);
      return true;
    }

    method HasAutomatic(d: DocumentId, key: Key) returns (has: bool)
      requires Valid() && d in ledgers
      ensures has <==> BaseEntry(ViewOf(d), key).automatic > 0
    {
      var i := IndexOf(ledgers[d], key);
      IndexFound(ledgers[d], key);
      has := false;
      if i < |ledgers[d]| {
        ViewAt(ledgers[d], i);
        has := ledgers[d][i].automatic > 0;
      }
    }

    method UndoPreloads(r: Resource, preloaded: seq<DocumentId>, ghost l0: map<DocumentId, seq<Record>>,
                        ghost resident0: multiset<Key>)
      requires Valid() && ledgers.Keys == l0.Keys && DistinctDocuments(preloaded)
      requires ResidencyOk(l0, resident0)
      requires forall d :: d in l0 ==> LedgerOk(l0[d])
      requires forall d :: d in preloaded ==> d in l0 && BaseEntry(View(l0[d]), r.key).automatic == 0
      requires forall d :: d in preloaded ==> ViewOf(d) == Acquire(View(l0[d]), r, Automatic)
      requires forall d :: d in l0 && d !in preloaded ==> ledgers[d] == l0[d]
      modifies this`ledgers, this`resident
      ensures Valid() && ledgers.Keys == l0.Keys && globalImages == old(globalImages)
      ensures forall d :: d in l0 ==> ViewOf(d) == if d in preloaded then RaiseFlag(View(l0[d]), r) else View(l0[d])
      ensures resident == resident0
    {
      hide DistinctKeys, View, AllHeld, Holders, ResidencyOk, KeysOf, Release, Acquire, RaiseFlag, BaseEntry;
      for i := 0 to |preloaded|
        invariant Valid() && ledgers.Keys == l0.Keys && globalImages == old(globalImages)
        invariant forall d :: d in preloaded[..i] ==> ViewOf(d) == RaiseFlag(View(l0[d]), r)
        invariant forall d :: d in l0 && d !in preloaded[..i] ==> ledgers[d] == old(ledgers[d])
      {
        var d := preloaded[i];
        assert d !in preloaded[..i] && preloaded[..i + 1] == preloaded[..i] + [d];
        assert d in preloaded;
        AutomaticUndone(View(l0[d]), r);
        ReleaseFromTree(d, r.key, Automatic);
      }
      assert preloaded[..|preloaded|] == preloaded;
      ResidencyRestoredAll(l0, resident0, ledgers, resident, r);
    }

    /** Drops one owner's references to `key` in every listed document. */
    method ReleaseInTrees(key: Key, owner: Owner, affected: seq<DocumentId>)
      requires Valid() && DistinctDocuments(affected) && forall i :: 0 <= i < |affected| ==> affected[i] in ledgers
      modifies this`ledgers, this`resident
      ensures Valid() && ledgers.Keys == old(ledgers.Keys) && globalImages == old(globalImages)
      ensures forall d :: d in ledgers ==>
        ViewOf(d) == if d in affected then Release(old(View(ledgers[d])), key, owner) else old(View(ledgers[d]))
      ensures old(HeldOnce()) ==> HeldOnce()
    {
      hide DistinctKeys, View, AllHeld, Holders, ResidencyOk, KeysOf, Release, AutomaticOnce, HeldOnce;
      for i := 0 to |affected|
        invariant old(HeldOnce()) ==> HeldOnce()
        invariant Valid() && ledgers.Keys == old(ledgers.Keys) && globalImages == old(globalImages)
        invariant forall d :: d in affected[..i] ==> ViewOf(d) == Release(old(View(ledgers[d])), key, owner)
        invariant forall d :: d in ledgers && d !in affected[..i] ==> ledgers[d] == old(ledgers[d])
      {
        var d := affected[i];
        assert d !in affected[..i] && affected[..i + 1] == affected[..i] + [d];
        ReleaseFromTree(d, key, owner);
      }
      assert affected[..|affected|] == affected;
    }

    /** Registering or replacing a global image: failure leaves every count and the table as they were. */
    method RegisterImage(r: Resource, affected: seq<DocumentId>, newRequired: bool, oldRequired: bool,
                         shown: map<DocumentId, seq<seq<Key>>>) returns (ok: bool)
      requires Valid() && DistinctDocuments(affected) && forall i :: 0 <= i < |affected| ==> affected[i] in ledgers
      modifies this`ledgers, this`resident, this`refusals, this`globalImages
      ensures Valid() && ledgers.Keys == old(ledgers.Keys)
      ensures !ok ==> globalImages == old(globalImages) && resident == old(resident)
      ensures !ok ==> forall d :: d in ledgers ==>
        ViewOf(d) == old(View(ledgers[d])) || ViewOf(d) == RaiseFlag(old(View(ledgers[d])), r)
      ensures ok ==> globalImages == old(globalImages)[r.id := r]
      ensures ok ==> forall d :: d in ledgers && d !in affected ==> ViewOf(d) == old(View(ledgers[d]))
      ensures ok ==> forall d :: d in affected ==>
        var taken := if newRequired then TakenOnce(old(View(ledgers[d])), r) else old(View(ledgers[d]));
        var switched := if r.id !in old(globalImages) then taken
                        else if old(globalImages)[r.id].key != r.key
                            then Release(taken, old(globalImages)[r.id].key, All)
                        else if oldRequired && !newRequired then Release(taken, r.key, Automatic)
                        else taken;
        Grown(switched, ViewOf(d), ShownIn(shown, d))
      ensures ok && refusals == old(refusals) ==>
        forall d :: d in affected && d in shown ==> ShownHeld(shown[d], ViewOf(d))
      ensures old(HeldOnce()) ==> HeldOnce()
      ensures old(refusals) <= refusals
      ensures !ok ==> refusals == old(refusals) + 1
    {
      hide DistinctKeys, View, AllHeld, LedgerOk, Holders, ResidencyOk, KeysOf, Release, RaiseFlag, TakenOnce, Grown,
        ShownIn, ShownHeld, AutomaticOnce;
      if newRequired {
        var done := PreloadInTrees(r, affected);
        forall d | d in ledgers ensures old(AutomaticOnce(View(ledgers[d]))) ==> AutomaticOnce(ViewOf(d)) {
          AutomaticStaysOnce(old(View(ledgers[d])), r, Manual, r.key, Manual);
        }
        if !done {
          return false;
        }
      }
      ReleasePrevious(r, affected, newRequired, oldRequired);
      globalImages := globalImages[r.id := r];
      RefreshTrees(affected, shown);
      return true;
    }

    /** What the affected documents held for the image registered under this id before. */
    method ReleasePrevious(r: Resource, affected: seq<DocumentId>, newRequired: bool, oldRequired: bool)
      requires Valid() && DistinctDocuments(affected) && forall i :: 0 <= i < |affected| ==> affected[i] in ledgers
      modifies this`ledgers, this`resident
      ensures Valid() && ledgers.Keys == old(ledgers.Keys)
      ensures forall d :: d in ledgers && d !in affected ==> ViewOf(d) == old(View(ledgers[d]))
      ensures forall d :: d in affected ==>
        ViewOf(d) == if r.id !in globalImages then old(View(ledgers[d]))
                     else if globalImages[r.id].key != r.key
                         then Release(old(View(ledgers[d])), globalImages[r.id].key, All)
                     else if oldRequired && !newRequired then Release(old(View(ledgers[d])), r.key, Automatic)
                     else old(View(ledgers[d]))
      ensures old(HeldOnce()) ==> HeldOnce()
    {
      hide DistinctKeys, View, LedgerOk, ResidencyOk, KeysOf, Release, HeldOnce;
      if r.id in globalImages {
        var previous := globalImages[r.id];
        if previous.key != r.key {
          ReleaseInTrees(previous.key, All, affected);
        } else if oldRequired && !newRequired {
          ReleaseInTrees(previous.key, Automatic, affected);
        }
      }
    }

    /** Unregistering drops the image's record from every document, manual references included. */
    method UnregisterImage(id: string, documents: seq<DocumentId>, shown: map<DocumentId, seq<seq<Key>>>)
      returns (found: bool)
      requires Valid() && DistinctDocuments(documents) && forall d :: d in documents <==> d in ledgers
      modifies this`ledgers, this`resident, this`refusals, this`globalImages
      ensures Valid() && ledgers.Keys == old(ledgers.Keys) && globalImages == old(globalImages) - {id}
      ensures found <==> id in old(globalImages)
      ensures !found ==> ledgers == old(ledgers) && resident == old(resident)
      ensures found ==> forall d :: d in ledgers ==>
        Grown(old(View(ledgers[d])) - {old(globalImages)[id].key}, ViewOf(d), ShownIn(shown, d))
      ensures found && refusals == old(refusals) ==>
        forall d :: d in ledgers && d in shown ==> ShownHeld(shown[d], ViewOf(d))
      ensures old(HeldOnce()) ==> HeldOnce()
      ensures old(refusals) <= refusals
    {
      if id !in globalImages {
        return false;
      }
      var previous := globalImages[id];
      globalImages := globalImages - {id};
      DropFromTrees(previous.key, documents, shown);
      return true;
    }

    method DropFromTrees(key: Key, documents: seq<DocumentId>, shown: map<DocumentId, seq<seq<Key>>>)
      requires Valid() && DistinctDocuments(documents) && forall i :: 0 <= i < |documents| ==> documents[i] in ledgers
      modifies this`ledgers, this`resident, this`refusals
      ensures Valid() && ledgers.Keys == old(ledgers.Keys) && globalImages == old(globalImages)
      ensures forall d :: d in documents ==> Grown(old(View(ledgers[d])) - {key}, ViewOf(d), ShownIn(shown, d))
      ensures refusals == old(refusals) ==>
        forall d :: d in documents && d in shown ==> ShownHeld(shown[d], ViewOf(d))
      ensures old(HeldOnce()) ==> HeldOnce()
      ensures old(refusals) <= refusals
    {
      hide View, LedgerOk, ResidencyOk, Release, Grown, Refreshed, ShownBy, ShownHeld, HeldOnce;
      for i := 0 to |documents|
        invariant Valid() && ledgers.Keys == old(ledgers.Keys) && globalImages == old(globalImages)
        invariant (old(HeldOnce()) ==> HeldOnce()) && old(refusals) <= refusals
        invariant forall d :: d in documents[..i] ==> Grown(old(View(ledgers[d])) - {key}, ViewOf(d), ShownIn(shown, d))
        invariant refusals == old(refusals) ==>
          forall d :: d in documents[..i] && d in shown ==> ShownHeld(shown[d], ViewOf(d))
        invariant forall d :: d in ledgers && d !in documents[..i] ==> ledgers[d] == old(ledgers[d])
      {
        var d := documents[i];
        assert d !in documents[..i] && documents[..i + 1] == documents[..i] + [d];
        ReleaseAllErases(ViewOf(d), key);
        ReleaseFromTree(d, key, All);
        var refused := RefreshImageReferences(d, if d in shown then shown[d] else []);
      }
      assert documents[..|documents|] == documents;
    }
  }

  // ---- Refreshing the nodes that show an image ----
  //
  // `shown` gives, for an image id or for a document, one list per node that references the image being refreshed:
  // the keys of that node's images the backend wants preloaded.

  function Refreshed(v: map<Key, Entry>, keys: set<Key>): map<Key, Entry> {
    map k | k in v.Keys + keys :: if k in v then v[k] else Entry(1, 0, false)
  }

  /** `w` is `v` with one automatic reference more for some images of `keys` that were not held. */
  predicate Grown(v: map<Key, Entry>, w: map<Key, Entry>, keys: set<Key>) {
    v.Keys <= w.Keys <= v.Keys + keys && w == Refreshed(v, w.Keys)
  }

  /** Every image the nodes show is held. */
  predicate ShownHeld(nodes: seq<seq<Key>>, v: map<Key, Entry>) {
    forall n, j :: 0 <= n < |nodes| && 0 <= j < |nodes[n]| ==> nodes[n][j] in v
  }

  lemma GrownHolds(v: map<Key, Entry>, w: map<Key, Entry>, keys: set<Key>)
    requires Grown(v, w, keys)
    ensures forall nodes :: ShownHeld(nodes, v) ==> ShownHeld(nodes, w)
  {
    hide Refreshed;
  }

  function ShownBy(nodes: seq<seq<Key>>): set<Key> {
    set n, j | 0 <= n < |nodes| && 0 <= j < |nodes[n]| :: nodes[n][j]
  }

  function ShownIn(shown: map<DocumentId, seq<seq<Key>>>, d: DocumentId): set<Key> {
    ShownBy(if d in shown then shown[d] else [])
  }

  function ShownFor(shown: map<string, seq<seq<Key>>>, id: string): set<Key> {
    ShownBy(if id in shown then shown[id] else [])
  }

  lemma GrownSelf(v: map<Key, Entry>)
    ensures forall keys :: Grown(v, v, keys)
  {
    assert v == Refreshed(v, v.Keys);
  }

  lemma GrowOne(v: map<Key, Entry>, w: map<Key, Entry>, keys: set<Key>, k: Key)
    requires Grown(v, w, keys) && k in keys
    ensures k !in w ==> Grown(v, w[k := Entry(1, 0, false)], keys)
  {
    var x := w[k := Entry(1, 0, false)];
    assert k !in w ==> x == Refreshed(v, x.Keys);
  }

  lemma GrownFully(v: map<Key, Entry>, w: map<Key, Entry>, nodes: seq<seq<Key>>)
    requires Grown(v, w, ShownBy(nodes))
    requires forall n, j :: 0 <= n < |nodes| && 0 <= j < |nodes[n]| ==> nodes[n][j] in w
    ensures w == Refreshed(v, ShownBy(nodes))
  {
    assert w.Keys == v.Keys + ShownBy(nodes);
  }

  lemma GrownChain(a: map<Key, Entry>, b: map<Key, Entry>, c: map<Key, Entry>, keys: set<Key>, more: set<Key>)
    requires Grown(a, b, keys) && Grown(b, c, more) && more <= keys
    ensures Grown(a, c, keys)
  {
    assert c == Refreshed(a, c.Keys);
  }

  /** Manual releases never touch what a refresh added. */
  lemma GrownRelease(v: map<Key, Entry>, w: map<Key, Entry>, keys: set<Key>, key: Key)
    requires Grown(v, w, keys)
    ensures var a, b := Release(v, key, Manual), Release(w, key, Manual);
            Grown(a, b, keys) && b.Keys - a.Keys == w.Keys - v.Keys && a.Keys <= v.Keys
  {
    var a, b := Release(v, key, Manual), Release(w, key, Manual);
    assert b == Refreshed(a, b.Keys);
    assert b.Keys - a.Keys == w.Keys - v.Keys;
  }

  function AllShown(shown: map<string, seq<seq<Key>>>): set<Key> {
    set id, k | id in shown && k in ShownFor(shown, id) :: k
  }

  lemma ShownOfAll(shown: map<string, seq<seq<Key>>>, id: string)
    ensures ShownFor(shown, id) <= AllShown(shown)
  {
    if id !in shown {
      assert ShownFor(shown, id) == {};
    }
  }

  function IdsOf(s: seq<Resource>, n: nat): set<string>
    requires n <= |s|
  {
    set i | 0 <= i < n :: s[i].id
  }

  /** Releasing a list when no refresh is refused: an id is refreshed after its first release only. */
  function ReleasedRefreshed(v: map<Key, Entry>, s: seq<Resource>, shown: map<string, seq<seq<Key>>>, n: nat)
    : map<Key, Entry>
    requires n <= |s|
  {
    if n == 0 then v
    else
      var released := Release(ReleasedRefreshed(v, s, shown, n - 1), s[n - 1].key, Manual);
      if s[n - 1].id in IdsOf(s, n - 1) then released else Refreshed(released, ShownFor(shown, s[n - 1].id))
  }

  /** A refresh finds the image missing after the `i`-th release. */
  predicate RetakenAt(v: map<Key, Entry>, s: seq<Resource>, shown: map<string, seq<seq<Key>>>, k: Key, i: nat)
    requires i < |s|
  {
    s[i].id !in IdsOf(s, i) && k in ShownFor(shown, s[i].id) && k !in ReleaseFirst(v, s, i + 1)
  }

  lemma ReleaseShrinks(v: map<Key, Entry>, s: seq<Resource>, i: nat, n: nat)
    requires i <= n <= |s|
    ensures ReleaseFirst(v, s, n).Keys <= ReleaseFirst(v, s, i).Keys
  {
    if i < n {
      ReleaseShrinks(v, s, i, n - 1);
    }
  }

  /** Exactly which images are still held after a list of releases. */
  lemma {:induction false} HeldAfterReleases(v: map<Key, Entry>, s: seq<Resource>, shown: map<string, seq<seq<Key>>>,
                                             n: nat, k: Key)
    requires n <= |s|
    ensures Grown(ReleaseFirst(v, s, n), ReleasedRefreshed(v, s, shown, n), AllShown(shown))
    ensures k in ReleasedRefreshed(v, s, shown, n) <==>
            k in ReleaseFirst(v, s, n) || exists i :: 0 <= i < n && RetakenAt(v, s, shown, k, i)
  {
    hide Release, Grown, AllShown, ShownFor, IdsOf;
    if n == 0 {
      GrownSelf(v);
    } else {
      HeldAfterReleases(v, s, shown, n - 1, k);
      var a, b := ReleaseFirst(v, s, n - 1), ReleasedRefreshed(v, s, shown, n - 1);
      GrownRelease(a, b, AllShown(shown), s[n - 1].key);
      var a', b' := Release(a, s[n - 1].key, Manual), Release(b, s[n - 1].key, Manual);
      HeldStep(a, b, shown, s[n - 1].id);
      HeldStep(a', b', shown, s[n - 1].id);
      assert k in b' && k !in a' <==> k in b && k !in a by {
        assert k in b'.Keys - a'.Keys <==> k in b.Keys - a.Keys;
      }
      forall i | 0 <= i < n - 1 && RetakenAt(v, s, shown, k, i) ensures k !in a {
        ReleaseShrinks(v, s, i + 1, n - 1);
      }
      assert RetakenAt(v, s, shown, k, n - 1) <==>
             s[n - 1].id !in IdsOf(s, n - 1) && k in ShownFor(shown, s[n - 1].id) && k !in a';
    }
  }

  lemma HeldStep(a: map<Key, Entry>, b: map<Key, Entry>, shown: map<string, seq<seq<Key>>>, id: string)
    requires Grown(a, b, AllShown(shown))
    ensures Grown(a, Refreshed(b, ShownFor(shown, id)), AllShown(shown)) && a.Keys <= b.Keys
  {
    hide AllShown, ShownFor;
    ShownOfAll(shown, id);
    var c := Refreshed(b, ShownFor(shown, id));
    assert c == Refreshed(a, c.Keys);
  }

  /** Releasing an image twice in one call can leave a node that shows it without it; two calls cannot. */
  lemma ReleasedTwice(a: Resource)
    ensures var v, shown := map[a.key := Entry(0, 2, false)], map[a.id := [[a.key]]];
            && a.key !in ReleasedRefreshed(v, [a, a], shown, 2)
            && a.key in ReleasedRefreshed(ReleasedRefreshed(v, [a], shown, 1), [a], shown, 1)
  {
    var v, shown, s, once := map[a.key := Entry(0, 2, false)], map[a.id := [[a.key]]], [a, a],
        map[a.key := Entry(0, 1, false)];
    assert [[a.key]][0][0] == a.key && ShownFor(shown, a.id) == {a.key};
    assert Refreshed(once, {a.key}) == once;
    assert ReleasedRefreshed(v, s, shown, 1) == once == ReleasedRefreshed(v, [a], shown, 1);
    assert s[0].id in IdsOf(s, 1);
    assert ReleasedRefreshed(v, s, shown, 2) == once - {a.key};
  }

  // ---- Collecting a document's images ----

  /** What the backend caches an image under: its file, or its native id when there is no file. */
  datatype CacheKey = File(src: string) | Native(id: nat)

  function CacheKeyOf(key: Key): CacheKey {
    if key.primarySrc == "" then Native(key.nativeSrc) else File(key.primarySrc)
  }

  /** Two images share a cache entry exactly when they have the same file, or both none and the same native id. */
  lemma SameCacheExactly(a: Key, b: Key)
    ensures CacheKeyOf(a) == CacheKeyOf(b) <==>
            a.primarySrc == b.primarySrc && (a.primarySrc == "" ==> a.nativeSrc == b.nativeSrc)
  {
  }

  function CachedAt(resources: seq<Resource>, key: CacheKey): (i: nat)
    ensures i <= |resources| && (i < |resources| ==> CacheKeyOf(resources[i].key) == key)
    ensures forall j :: 0 <= j < i ==> CacheKeyOf(resources[j].key) != key
  {
    if resources == [] || CacheKeyOf(resources[0].key) == key then 0 else 1 + CachedAt(resources[1..], key)
  }

  /** A second image with the same cache key only lends its preload flag. */
  function Appended(resources: seq<Resource>, r: Resource): seq<Resource> {
    var i := CachedAt(resources, CacheKeyOf(r.key));
    if i < |resources| then resources[i := resources[i].(preload := resources[i].preload || r.preload)]
        else resources + [r]
  }

  /** The first `n` images, one per cache key. */
  function Collected(images: seq<Resource>, n: nat): seq<Resource>
    requires n <= |images|
  {
    if n == 0 then [] else Appended(Collected(images, n - 1), images[n - 1])
  }

  predicate DistinctCacheKeys(s: seq<Resource>) {
    forall i, j :: 0 <= i < j < |s| ==> CacheKeyOf(s[i].key) != CacheKeyOf(s[j].key)
  }

  predicate Listed(s: seq<Resource>, key: CacheKey, preload: bool) {
    exists i :: 0 <= i < |s| && CacheKeyOf(s[i].key) == key && (preload ==> s[i].preload)
  }

  lemma AppendedDistinct(s: seq<Resource>, r: Resource)
    requires DistinctCacheKeys(s)
    ensures DistinctCacheKeys(Appended(s, r))
  {
    hide CacheKeyOf;
    var t := Appended(s, r);
    assert forall i :: 0 <= i < |t| ==> t[i].key == if i < |s| then s[i].key else r.key;
  }

  lemma AppendedLists(s: seq<Resource>, r: Resource, key: CacheKey, preload: bool)
    ensures Listed(Appended(s, r), key, preload) <==>
            Listed(s, key, preload) || (CacheKeyOf(r.key) == key && (preload ==> r.preload))
  {
    hide CacheKeyOf;
    var t, at := Appended(s, r), CachedAt(s, CacheKeyOf(r.key));
    if Listed(s, key, preload) {
      var i :| 0 <= i < |s| && CacheKeyOf(s[i].key) == key && (preload ==> s[i].preload);
      assert t[i].key == s[i].key;
    }
    if CacheKeyOf(r.key) == key && (preload ==> r.preload) {
      assert CacheKeyOf(t[at].key) == key;
    }
    if Listed(t, key, preload) {
      var i :| 0 <= i < |t| && CacheKeyOf(t[i].key) == key && (preload ==> t[i].preload);
      if i < |s| {
        assert s[i].key == t[i].key;
      }
    }
  }

  /** Every image is represented once, and preloaded when any image of its cache key is to be. */
  lemma {:induction false} CollectedLists(images: seq<Resource>, n: nat, key: CacheKey, preload: bool)
    requires n <= |images|
    ensures DistinctCacheKeys(Collected(images, n)) && DistinctResources(Collected(images, n))
    ensures Listed(Collected(images, n), key, preload) <==> Listed(images[..n], key, preload)
  {
    hide CacheKeyOf, Appended;
    if n > 0 {
      CollectedLists(images, n - 1, key, preload);
      AppendedDistinct(Collected(images, n - 1), images[n - 1]);
      AppendedLists(Collected(images, n - 1), images[n - 1], key, preload);
      var a, b := images[..n - 1], images[..n];
      assert b == a + [images[n - 1]];
      if Listed(a, key, preload) {
        var i :| 0 <= i < |a| && CacheKeyOf(a[i].key) == key && (preload ==> a[i].preload);
        assert b[i] == a[i];
      }
      if CacheKeyOf(images[n - 1].key) == key && (preload ==> images[n - 1].preload) {
        assert b[n - 1] == images[n - 1];
      }
    }
  }

  method CollectImageResources(images: seq<Resource>) returns (resources: seq<Resource>)
    ensures resources == Collected(images, |images|) && DistinctResources(resources)
  {
    resources := [];
    for i := 0 to |images|
      invariant resources == Collected(images, i)
    {
      var at := CachedAt(resources, CacheKeyOf(images[i].key));
      if at < |resources| {
        resources := resources[at := resources[at].(preload := resources[at].preload || images[i].preload)];
      } else {
        resources := resources + [images[i]];
      }
    }
    CollectedLists(images, |images|, Native(0), false);
  }

  function TakenOnce(v: map<Key, Entry>, r: Resource): map<Key, Entry> {
    if BaseEntry(v, r.key).automatic > 0 then v else Acquire(v, r, Automatic)
  }

  lemma TakenOnceIs(v: map<Key, Entry>, r: Resource)
    ensures TakenOnce(v, r) == if BaseEntry(v, r.key).automatic > 0 then v else Acquire(v, r, Automatic)
  {
  }

  lemma ReleaseAllErases(v: map<Key, Entry>, key: Key)
    ensures Release(v, key, All) == v - {key}
  {
  }

  /** Raised flags do not change which images are held, in any document. */
  lemma ResidencyRestoredAll(ledgers0: map<DocumentId, seq<Record>>, resident0: multiset<Key>,
                             ledgers: map<DocumentId, seq<Record>>, resident: multiset<Key>, r: Resource)
    requires ResidencyOk(ledgers0, resident0) && ResidencyOk(ledgers, resident) && ledgers.Keys == ledgers0.Keys
    requires forall d :: d in ledgers ==>
               View(ledgers[d]) == View(ledgers0[d]) || View(ledgers[d]) == RaiseFlag(View(ledgers0[d]), r)
    ensures resident == resident0
  {
    forall k ensures resident[k] == resident0[k] {
      forall d | d in ledgers ensures KeysOf(ledgers[d]) == KeysOf(ledgers0[d]) {
        IndexFound(ledgers[d], k);
        IndexFound(ledgers0[d], k);
      }
      assert Holders(ledgers, k) == Holders(ledgers0, k);
    }
  }

  // ---- One image for many documents ----

  /** The first `i` affected documents hold the image automatically, those in `preloaded` by a reference just taken. */
  predicate Taking(r: Resource, affected: seq<DocumentId>, i: nat, preloaded: seq<DocumentId>,
                   l0: map<DocumentId, seq<Record>>, l: map<DocumentId, seq<Record>>)
    requires i <= |affected|
  {
    && l.Keys == l0.Keys && DistinctDocuments(preloaded)
    && (forall d :: d in preloaded ==> d in affected[..i] && d in l0 && BaseEntry(View(l0[d]), r.key).automatic == 0)
    && (forall d :: d in affected[..i] && d !in preloaded ==>
          d in l0 && BaseEntry(View(l0[d]), r.key).automatic > 0)
    && (forall d :: d in preloaded ==> View(l[d]) == Acquire(View(l0[d]), r, Automatic))
    && (forall d :: d in l0 && d !in preloaded ==> l[d] == l0[d])
  }

  lemma TakingStart(r: Resource, affected: seq<DocumentId>, l0: map<DocumentId, seq<Record>>)
    ensures Taking(r, affected, 0, [], l0, l0)
  {
  }

  lemma TakingNext(r: Resource, affected: seq<DocumentId>, i: nat, preloaded: seq<DocumentId>,
                   l0: map<DocumentId, seq<Record>>, l: map<DocumentId, seq<Record>>)
    requires i < |affected| && DistinctDocuments(affected) && Taking(r, affected, i, preloaded, l0, l)
    requires affected[i] in l0
    ensures affected[i] in l && l[affected[i]] == l0[affected[i]]
    ensures BaseEntry(View(l[affected[i]]), r.key).automatic > 0 ==> Taking(r, affected, i + 1, preloaded, l0, l)
  {
    hide View, BaseEntry, Acquire;
    assert affected[i] !in affected[..i] && affected[..i + 1] == affected[..i] + [affected[i]];
  }

  lemma TakingOneMore(r: Resource, affected: seq<DocumentId>, i: nat, preloaded: seq<DocumentId>,
                      l0: map<DocumentId, seq<Record>>, l: map<DocumentId, seq<Record>>,
                      after: map<DocumentId, seq<Record>>)
    requires i < |affected| && DistinctDocuments(affected) && Taking(r, affected, i, preloaded, l0, l)
    requires affected[i] in l0 && affected[i] in after && after == l[affected[i] := after[affected[i]]]
    requires BaseEntry(View(l0[affected[i]]), r.key).automatic == 0
    requires View(after[affected[i]]) == Acquire(View(l0[affected[i]]), r, Automatic)
    ensures Taking(r, affected, i + 1, preloaded + [affected[i]], l0, after)
  {
    hide View, BaseEntry, Acquire;
    assert affected[i] !in affected[..i] && affected[..i + 1] == affected[..i] + [affected[i]];
  }

  lemma TakingSoFar(r: Resource, affected: seq<DocumentId>, i: nat, preloaded: seq<DocumentId>,
                    l0: map<DocumentId, seq<Record>>, l: map<DocumentId, seq<Record>>)
    requires i <= |affected| && Taking(r, affected, i, preloaded, l0, l)
    ensures l.Keys == l0.Keys && DistinctDocuments(preloaded)
    ensures forall d :: d in preloaded ==> d in l0 && BaseEntry(View(l0[d]), r.key).automatic == 0
    ensures forall d :: d in preloaded ==> View(l[d]) == Acquire(View(l0[d]), r, Automatic)
    ensures forall d :: d in l0 && d !in preloaded ==> l[d] == l0[d]
  {
    hide View, BaseEntry, Acquire;
  }

  lemma TakingEnd(r: Resource, affected: seq<DocumentId>, preloaded: seq<DocumentId>,
                  l0: map<DocumentId, seq<Record>>, l: map<DocumentId, seq<Record>>)
    requires Taking(r, affected, |affected|, preloaded, l0, l)
    ensures l.Keys == l0.Keys
    ensures forall d :: d in l ==> View(l[d]) == if d in affected then TakenOnce(View(l0[d]), r) else View(l0[d])
  {
    hide View, BaseEntry, Acquire, TakenOnce;
    assert affected[..|affected|] == affected;
    forall d | d in l ensures View(l[d]) == if d in affected then TakenOnce(View(l0[d]), r) else View(l0[d]) {
      TakenOnceIs(View(l0[d]), r);
    }
  }

  // ---- Documents come and go ----

  /** The document's own images first, then exactly the global ones. */
  ghost predicate AllImages(own: seq<Resource>, globalImages: map<string, Resource>, all: seq<Resource>) {
    && own <= all
    && forall r :: r in all[|own|..] <==> exists id :: id in globalImages && globalImages[id] == r
  }

  /** Every listed preload image and every image the backend wants for a node is held once, automatically. */
  ghost predicate LoadedFor(v: map<Key, Entry>, images: seq<Resource>, nodes: seq<seq<Key>>) {
    exists w :: LoadedTo(w, Collected(images, |images|)) && v == Refreshed(w, ShownBy(nodes))
  }

  /** The same with some of the nodes' images missing. */
  ghost predicate PartlyLoadedFor(v: map<Key, Entry>, images: seq<Resource>, nodes: seq<seq<Key>>) {
    exists w :: LoadedTo(w, Collected(images, |images|)) && Grown(w, v, ShownBy(nodes))
  }

  lemma EmptyLedger()
    ensures LedgerOk([]) && AutomaticOnce(View([]))
  {
  }

  /** A document without records holds nothing, so it can come and go. */
  lemma EntersEmpty(ledgers: map<DocumentId, seq<Record>>, resident: multiset<Key>, d: DocumentId)
    requires ResidencyOk(ledgers, resident) && d !in ledgers
    ensures ResidencyOk(ledgers[d := []], resident)
  {
    forall k ensures resident[k] == |Holders(ledgers[d := []], k)| {
      assert Holders(ledgers[d := []], k) == Holders(ledgers, k);
    }
  }

  lemma LeavesEmpty(ledgers: map<DocumentId, seq<Record>>, resident: multiset<Key>, d: DocumentId)
    requires ResidencyOk(ledgers, resident) && d in ledgers && ledgers[d] == []
    ensures ResidencyOk(ledgers - {d}, resident)
  {
    forall k ensures resident[k] == |Holders(ledgers - {d}, k)| {
      assert Holders(ledgers - {d}, k) == Holders(ledgers, k);
    }
  }

  /** With the last document everything has left the backend. */
  lemma NothingLeft(resident: multiset<Key>)
    requires ResidencyOk(map[], resident)
    ensures resident == multiset{}
  {
    assert forall k :: Holders(map[], k) == {};
  }

  // ---- The load-time pass ----

  predicate DistinctResources(s: seq<Resource>) {
    forall i, j :: 0 <= i < j < |s| ==> s[i].key != s[j].key
  }

  function PreloadKeys(s: seq<Resource>): set<Key> {
    set i | 0 <= i < |s| && s[i].preload :: s[i].key
  }

  predicate LoadedTo(v: map<Key, Entry>, s: seq<Resource>) {
    v.Keys == PreloadKeys(s) && forall k :: k in v ==> v[k] == Entry(1, 0, true)
  }

  lemma LoadedNone(s: seq<Resource>)
    ensures LoadedTo(View([]), s[..0])
  {
  }

  lemma LoadedIsOnce(v: map<Key, Entry>, s: seq<Resource>)
    ensures LoadedTo(v, s) ==> AutomaticOnce(v)
  {
  }

  lemma LoadedSkip(v: map<Key, Entry>, s: seq<Resource>, i: nat)
    requires i < |s| && !s[i].preload
    ensures LoadedTo(v, s[..i]) ==> LoadedTo(v, s[..i + 1])
  {
    PreloadKeysStep(s, i);
  }

  lemma PreloadKeysStep(s: seq<Resource>, i: nat)
    requires i < |s|
    ensures PreloadKeys(s[..i + 1]) == PreloadKeys(s[..i]) + if s[i].preload then {s[i].key} else {}
  {
    var t := s[..i + 1];
    assert t[i] == s[i] && forall j :: 0 <= j < i ==> t[j] == s[..i][j];
  }

  lemma LoadedStep(v: map<Key, Entry>, s: seq<Resource>, i: nat)
    requires i < |s| && s[i].preload && DistinctResources(s) && LoadedTo(v, s[..i])
    ensures LoadedTo(Acquire(v, s[i], Automatic), s[..i + 1])
  {
    PreloadKeysStep(s, i);
    assert s[i].key !in v by {
      assert forall j :: 0 <= j < i ==> s[..i][j].key != s[i].key;
    }
  }

  lemma DropFirst(ledger: seq<Record>, i: nat)
    requires i < |ledger| && DistinctKeys(ledger)
    ensures KeysOf(ledger[i + 1..]) == KeysOf(ledger[i..]) - {ledger[i].resource.key}
    ensures ledger[i].resource.key in KeysOf(ledger[i..])
  {
    var a, b, key := ledger[i..], ledger[i + 1..], ledger[i].resource.key;
    assert a[0] == ledger[i];
    forall k ensures k in KeysOf(b) <==> k in KeysOf(a) && k != key {
      if k in KeysOf(b) {
        var j :| 0 <= j < |b| && b[j].resource.key == k;
        assert a[j + 1] == b[j] && b[j] == ledger[i + 1 + j];
      }
      if k in KeysOf(a) && k != key {
        var j :| 0 <= j < |a| && a[j].resource.key == k;
        assert b[j - 1] == a[j];
      }
    }
  }

  /** Same keys in every ledger means the backend holds exactly what it held. */
  lemma ResidencyRestored(ledgers0: map<DocumentId, seq<Record>>, resident0: multiset<Key>,
                          ledgers: map<DocumentId, seq<Record>>, resident: multiset<Key>, d: DocumentId,
                          acquired: seq<Resource>)
    requires ResidencyOk(ledgers0, resident0) && ResidencyOk(ledgers, resident)
    requires d in ledgers0 && d in ledgers && ledgers == ledgers0[d := ledgers[d]]
    requires View(ledgers[d]) == Holding(View(ledgers0[d]), acquired, [])
    ensures resident == resident0
  {
    RollbackExact(View(ledgers0[d]), acquired);
    IndexFound(ledgers[d], Key("", 0));
    IndexFound(ledgers0[d], Key("", 0));
    ResidencySame(ledgers0, resident0, d, ledgers[d]);
    ResidencyUnique(ledgers, resident, resident0);
  }
}
