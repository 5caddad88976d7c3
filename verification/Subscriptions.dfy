/** The runtime's subscription table: who owns which subscription, and which of them animate on behalf of events. */
module Subscriptions {
  import opened Keys

  type DocumentId = nat

  datatype Option<T> = None | Some(value: T)

  /**
   * Event animations by key, the owning document of each subscription, the subscriptions that can still be
   * disconnected, and the next id. Document 0 is the invalid id and owns nothing.
   */
  datatype Table = Table(animations: map<string, nat>, owners: map<nat, DocumentId>, handlers: set<nat>, next: nat)

  const EMPTY := Table(map[], map[], {}, 1)

  function AnimationKey(document: DocumentId, path: string, id: string): string {
    UnitKey(document, path + [UNIT] + id)
  }

  predicate AnimationOk(t: Table, k: string)
    requires k in t.animations
  {
    && 0 < t.animations[k] < t.next
    && (t.animations[k] in t.owners ==> UnitPrefix(t.owners[t.animations[k]]) <= k)
  }

  /** Ids are issued once, owned ones can be disconnected, event animations belong to the document of their key. */
  predicate TableOk(t: Table) {
    && 0 < t.next
    && (forall i :: i in t.handlers ==> 0 < i < t.next)
    && (forall i :: i in t.owners ==> i in t.handlers)
    && (forall k {:trigger AnimationOk(t, k)} :: k in t.animations ==> AnimationOk(t, k))
    && (forall k, l :: k in t.animations && l in t.animations && k != l ==> t.animations[k] != t.animations[l])
  }

  // ---- The operations ----

  function Registered(t: Table, document: DocumentId): Table {
    t.(next := t.next + 1, handlers := t.handlers + {t.next},
       owners := if document == 0 then t.owners else t.owners[t.next := document])
  }

  function Disconnected(t: Table, id: nat): Table {
    t.(owners := t.owners - {id}, handlers := t.handlers - {id})
  }

  /** Stopping an event animation ends its subscription and forgets its key. */
  function Stopped(t: Table, key: string): Table {
    if key in t.animations then Disconnected(t, t.animations[key]).(animations := t.animations - {key}) else t
  }

  /** Starting one stops the animation that runs under the same key first; an animation without an id has no key. */
  function Started(t: Table, document: DocumentId, key: Option<string>, accepted: bool): Table {
    var stopped := if key.Some? then Stopped(t, key.value) else t;
    if !accepted then stopped
    else
      var r := Registered(stopped, document);
      if key.Some? then r.(animations := r.animations[key.value := stopped.next]) else r
  }

  function PrefixedKeys(keys: set<string>, document: DocumentId): set<string> {
    set k | k in keys && UnitPrefix(document) <= k
  }

  function OwnersLeft(owners: map<nat, DocumentId>, document: DocumentId): map<nat, DocumentId> {
    map i | i in owners && owners[i] != document :: owners[i]
  }

  function OwnedBy(owners: map<nat, DocumentId>, document: DocumentId): set<nat> {
    set i | i in owners && owners[i] == document
  }

  function AnimationsOf(t: Table, document: DocumentId): set<nat> {
    set k | k in t.animations && UnitPrefix(document) <= k :: t.animations[k]
  }

  /** What unloading a document leaves. */
  function Without(t: Table, document: DocumentId): Table {
    t.(animations := t.animations - PrefixedKeys(t.animations.Keys, document),
       owners := OwnersLeft(t.owners, document),
       handlers := t.handlers - OwnedBy(t.owners, document) - AnimationsOf(t, document))
  }

  // ---- The invariant ----

  lemma RegisteredOk(t: Table, document: DocumentId)
    requires TableOk(t)
    ensures TableOk(Registered(t, document))
  {
    hide UnitPrefix;
    var u := Registered(t, document);
    forall k | k in u.animations ensures AnimationOk(u, k) {
      assert AnimationOk(t, k);
    }
  }

  lemma DisconnectedOk(t: Table, id: nat)
    requires TableOk(t)
    ensures TableOk(Disconnected(t, id))
  {
    hide UnitPrefix;
    var u := Disconnected(t, id);
    forall k | k in u.animations ensures AnimationOk(u, k) {
      assert AnimationOk(t, k);
    }
  }

  lemma StoppedOk(t: Table, key: string)
    requires TableOk(t)
    ensures TableOk(Stopped(t, key)) && key !in Stopped(t, key).animations
  {
    hide UnitPrefix;
    var u := Stopped(t, key);
    forall k | k in u.animations ensures AnimationOk(u, k) {
      assert AnimationOk(t, k);
    }
  }

  /** Starting an event animation keeps the table in order, whether or not the backend takes it. */
  lemma StartedOk(t: Table, document: DocumentId, key: Option<string>, accepted: bool)
    requires TableOk(t) && (key.Some? ==> UnitPrefix(document) <= key.value)
    ensures TableOk(Started(t, document, key, accepted))
  {
    hide UnitPrefix;
    var stopped := if key.Some? then Stopped(t, key.value) else t;
    if key.Some? {
      StoppedOk(t, key.value);
    }
    RegisteredOk(stopped, document);
    var u := Started(t, document, key, accepted);
    forall k | k in u.animations ensures AnimationOk(u, k) {
      assert k in stopped.animations ==> AnimationOk(stopped, k);
    }
    forall k | k in stopped.animations ensures stopped.animations[k] != stopped.next {
      assert AnimationOk(stopped, k);
    }
  }

  // ---- What the operations mean, subscription by subscription ----

  /** One subscription more: it can be disconnected, and the document owns it unless it is the invalid one. */
  ghost predicate OneMore(t: Table, document: DocumentId, u: Table) {
    && u.next == t.next + 1
    && (forall i :: i in u.handlers <==> i in t.handlers || i == t.next)
    && (forall i :: i in u.owners <==> i in t.owners || (i == t.next && document != 0))
    && (forall i :: i in u.owners ==> u.owners[i] == if i == t.next && document != 0 then document else t.owners[i])
  }

  /** The animation of a key ends: its subscription is gone, and so is the key; all others stay. */
  ghost predicate Ended(t: Table, key: string, u: Table) {
    && u.next == t.next
    && (forall k :: k in u.animations <==> k in t.animations && k != key)
    && (forall k :: k in u.animations ==> u.animations[k] == t.animations[k])
    && (forall i :: i in u.handlers <==> i in t.handlers && !(key in t.animations && i == t.animations[key]))
    && (forall i :: i in u.owners <==> i in t.owners && !(key in t.animations && i == t.animations[key]))
    && (forall i :: i in u.owners ==> u.owners[i] == t.owners[i])
  }

  /** Starting under a key ends what ran under it; only if the backend accepts, the key has the new subscription. */
  ghost predicate StartMeans(t: Table, document: DocumentId, key: Option<string>, accepted: bool, u: Table) {
    exists ended ::
      && (match key case Some(k) => Ended(t, k, ended) case None => ended == t)
      && if !accepted then u == ended
         else
           && OneMore(ended, document, u)
           && (forall k :: k in u.animations <==> k in ended.animations || key == Some(k))
           && (forall k :: k in u.animations ==>
                 u.animations[k] == if key == Some(k) then t.next else ended.animations[k])
  }

  lemma RegisteredMeans(t: Table, document: DocumentId)
    ensures OneMore(t, document, Registered(t, document)) && Registered(t, document).animations == t.animations
  {
  }

  lemma StoppedMeans(t: Table, key: string)
    ensures Ended(t, key, Stopped(t, key))
  {
  }

  lemma StartedMeans(t: Table, document: DocumentId, key: Option<string>, accepted: bool)
    ensures StartMeans(t, document, key, accepted, Started(t, document, key, accepted))
  {
    hide Ended, OneMore, Stopped, Registered;
    var ended := if key.Some? then Stopped(t, key.value) else t;
    if key.Some? {
      StoppedMeans(t, key.value);
      EndedNext(t, key.value, ended);
    }
    RegisteredMeans(ended, document);
    SameCounts(Registered(ended, document), Started(t, document, key, accepted), ended, document);
  }

  lemma EndedNext(t: Table, key: string, u: Table)
    requires Ended(t, key, u)
    ensures u.next == t.next
  {
  }

  lemma SameCounts(r: Table, u: Table, t: Table, document: DocumentId)
    requires OneMore(t, document, r)
    ensures u == r.(animations := u.animations) ==> OneMore(t, document, u)
  {
  }

  lemma KeyIsPrefixed(document: DocumentId, path: string, id: string)
    ensures UnitPrefix(document) <= AnimationKey(document, path, id)
  {
  }

  lemma SameOwner(document: DocumentId, owner: DocumentId, key: string)
    requires UnitPrefix(document) <= key && UnitPrefix(owner) <= key
    ensures owner == document
  {
    assert "" + Decimal(document) + [UNIT] == UnitPrefix(document);
    assert "" + Decimal(owner) + [UNIT] == UnitPrefix(owner);
    OneOwner("", UNIT, document, owner, key);
  }

  /** After unloading, nothing in the table is the document's, and nothing of any other document is gone. */
  lemma WithoutIsolates(t: Table, document: DocumentId)
    requires TableOk(t)
    ensures var u := Without(t, document);
            && TableOk(u)
            && (forall k :: k in u.animations ==> !(UnitPrefix(document) <= k))
            && (forall i :: i in u.owners ==> u.owners[i] != document)
            && (forall k :: k in t.animations && !(UnitPrefix(document) <= k) ==>
                  k in u.animations && u.animations[k] == t.animations[k])
            && (forall i :: i in t.owners && t.owners[i] != document ==>
                  i in u.owners && u.owners[i] == t.owners[i] && i in u.handlers)
  {
    hide UnitPrefix;
    var u := Without(t, document);
    forall k | k in t.animations && UnitPrefix(document) <= k && t.animations[k] in t.owners
      ensures t.owners[t.animations[k]] == document
    {
      assert AnimationOk(t, k);
      SameOwner(document, t.owners[t.animations[k]], k);
    }
    forall k | k in u.animations ensures AnimationOk(u, k) {
      assert AnimationOk(t, k);
    }
  }

  /** Stopping a document's animations one by one, then disconnecting what else it owns, is forgetting the document. */
  lemma StoppedThenReleased(t: Table, u: Table, document: DocumentId)
    requires TableOk(t) && u.next == t.next
    requires u.animations == t.animations - PrefixedKeys(t.animations.Keys, document)
    requires u.owners == t.owners - AnimationsOf(t, document) && u.handlers == t.handlers - AnimationsOf(t, document)
    ensures u.(owners := OwnersLeft(u.owners, document), handlers := u.handlers - OwnedBy(u.owners, document))
         == Without(t, document)
  {
    hide UnitPrefix;
    forall k | k in t.animations && UnitPrefix(document) <= k && t.animations[k] in t.owners
      ensures t.owners[t.animations[k]] == document
    {
      assert AnimationOk(t, k);
      SameOwner(document, t.owners[t.animations[k]], k);
    }
    assert OwnersLeft(u.owners, document) == OwnersLeft(t.owners, document);
    assert u.handlers - OwnedBy(u.owners, document)
        == t.handlers - OwnedBy(t.owners, document) - AnimationsOf(t, document);
  }
}
