/** Arbitrary runs of everything that moves preload counts, over any number of documents. */
module ImageRuns {
  import opened ImageLedger

  /**
   * What can move counts. Which ids resolve, which nodes show an image and what the backend wants preloaded are
   * inputs, as they are for the operations themselves.
   */
  datatype Step =
    | Load(own: seq<Resource>, valid: bool, nodes: seq<seq<Key>>, built: bool)
    | Unload(d: DocumentId)
    | Reload(d: DocumentId, own: seq<Resource>, valid: bool, nodes: seq<seq<Key>>)
    | BuildNodes(d: DocumentId, nodes: seq<seq<Key>>)
    | Preload(d: DocumentId, requests: seq<Option<Resource>>, shown: map<string, seq<seq<Key>>>)
    | GiveBack(d: DocumentId, requests: seq<Option<Resource>>, shown: map<string, seq<seq<Key>>>)
    | Register(r: Resource, referencing: set<DocumentId>, newRequired: bool, oldRequired: bool,
               images: map<DocumentId, seq<seq<Key>>>)
    | Unregister(id: string, images: map<DocumentId, seq<seq<Key>>>)
    | ChangeSource(d: DocumentId, previous: Resource, next: Resource, previousNamed: bool, nextNamed: bool,
                   sourceChanged: bool, required: bool, referencedElsewhere: bool)

  /** The documents loaded after the first `n` steps; `ids` are the ids that loads gave. */
  function LoadedAfter(steps: seq<Step>, ids: seq<Option<DocumentId>>, n: nat): set<DocumentId>
    requires n <= |steps| && n <= |ids|
  {
    if n == 0 then {}
    else
      var before := LoadedAfter(steps, ids, n - 1);
      match steps[n - 1]
      case Load(_, _, _, _) => before + (if ids[n - 1].Some? then {ids[n - 1].value} else {})
      case Unload(d) => before - {d}
      case _ => before
  }

  lemma LoadedExtends(steps: seq<Step>, a: seq<Option<DocumentId>>, b: seq<Option<DocumentId>>, n: nat)
    requires n <= |steps| && n <= |a| && n <= |b| && a[..n] == b[..n]
    ensures LoadedAfter(steps, a, n) == LoadedAfter(steps, b, n)
  {
    if n > 0 {
      assert a[n - 1] == a[..n][n - 1] == b[n - 1];
      assert a[..n - 1] == a[..n][..n - 1] == b[..n - 1];
      LoadedExtends(steps, a, b, n - 1);
    }
  }

  /** What every document holds at one moment of a run, the registered images, and what the backend has refused. */
  datatype Moment = Moment(views: map<DocumentId, map<Key, Entry>>, images: map<string, Resource>, refusals: nat)

  function Now(rt: ImageRuntime): Moment
    reads rt
  {
    Moment(map d | d in rt.ledgers :: View(rt.ledgers[d]), rt.globalImages, rt.refusals)
  }

  /** Only one document's holdings differ. */
  predicate OnlyOf(d: DocumentId, a: Moment, b: Moment) {
    b.images == a.images && b.views.Keys == a.views.Keys
    && forall e :: e in a.views && e != d ==> b.views[e] == a.views[e]
  }

  ghost predicate Loads(own: seq<Resource>, nodes: seq<seq<Key>>, images: map<string, Resource>, v: map<Key, Entry>) {
    exists all :: AllImages(own, images, all) && LoadedFor(v, all, nodes)
  }

  predicate AllResolve(requests: seq<Option<Resource>>) {
    forall i :: 0 <= i < |requests| ==> requests[i].Some?
  }

  /** What a step must do; where the backend refused nothing, it does all of it. */
  ghost predicate StepDone(step: Step, a: Moment, b: Moment, id: Option<DocumentId>) {
    var smooth := b.refusals == a.refusals;
    match step
    case Load(own, valid, nodes, built) =>
      && b.images == a.images
      && if id.None? then b.views == a.views && !(valid && built && smooth)
         else
           && b.views.Keys == a.views.Keys + {id.value} && Loads(own, nodes, a.images, b.views[id.value])
           && forall d :: d in a.views && d != id.value ==> b.views[d] == a.views[d]
    case Unload(d) => b == a.(views := a.views - {d})
    case Reload(d, own, valid, nodes) =>
      && OnlyOf(d, a, b)
      && (d in a.views && valid && smooth ==> Loads(own, nodes, a.images, b.views[d]))
    case BuildNodes(d, nodes) =>
      && OnlyOf(d, a, b)
      && (d in a.views && smooth ==> b.views[d] == Refreshed(a.views[d], ShownBy(nodes)))
    case Preload(d, requests, shown) =>
      && OnlyOf(d, a, b)
      && (d in a.views && AllResolve(requests) && smooth ==>
            Grown(Holding(a.views[d], Resolved(requests), Resolved(requests)), b.views[d], AllShown(shown)))
    case GiveBack(d, requests, shown) =>
      && OnlyOf(d, a, b)
      && (d in a.views ==>
            if AllResolve(requests)
            then Grown(ReleaseFirst(a.views[d], Resolved(requests), |requests|), b.views[d], AllShown(shown))
            else b.views[d] == a.views[d])
    case Register(r, referencing, newRequired, oldRequired, shown) =>
      && b.views.Keys == a.views.Keys
      && (smooth ==>
            && b.images == a.images[r.id := r]
            && (forall d :: d in a.views && d !in referencing ==> b.views[d] == a.views[d])
            && (forall d :: d in a.views && d in referencing && d in shown ==> ShownHeld(shown[d], b.views[d])))
    case Unregister(image, shown) =>
      && b.images == a.images - {image} && b.views.Keys == a.views.Keys
      && (forall d :: d in a.views ==>
            if image in a.images then Grown(a.views[d] - {a.images[image].key}, b.views[d], ShownIn(shown, d))
            else b.views[d] == a.views[d])
    case ChangeSource(d, previous, next, previousNamed, nextNamed, sourceChanged, required, elsewhere) =>
      && OnlyOf(d, a, b)
      && (d in a.views && !smooth ==> b.views[d] == a.views[d])
      && (d in a.views && smooth ==>
            var taken := if nextNamed && (next.preload || required) && next.key !in a.views[d]
                         then Acquire(a.views[d], next, Automatic) else a.views[d];
            b.views[d] == if previousNamed && sourceChanged && previous.key != next.key && !elsewhere
                          then Release(taken, previous.key, Automatic) else taken)
  }

  /** One step; a document that is not loaded is left to the guards of the operations. */
  method Perform(rt: ImageRuntime, step: Step) returns (id: Option<DocumentId>)
    requires rt.Valid() && rt.HeldOnce() && rt.IdsIssued()
    modifies rt
    ensures rt.Valid() && rt.HeldOnce() && rt.IdsIssued()
    ensures old(rt.nextDocument) <= rt.nextDocument && old(rt.refusals) <= rt.refusals
    ensures id.Some? ==> step.Load? && old(rt.nextDocument) <= id.value < rt.nextDocument
    ensures step.Load? && step.valid && step.built && rt.refusals == old(rt.refusals) ==> id.Some?
    ensures rt.ledgers.Keys == if step.Load? && id.Some? then old(rt.ledgers.Keys) + {id.value}
                               else if step.Unload? then old(rt.ledgers.Keys) - {step.d}
                               else old(rt.ledgers.Keys)
    ensures StepDone(step, old(Now(rt)), Now(rt), id)
  {
    hide DistinctKeys, View, LedgerOk, Holders, ResidencyOk, KeysOf, AutomaticOnce, LoadedFor, AllImages;
    id := None;
    match step {
      case Load(own, valid, nodes, built) =>
        ghost var all;
        id, all := rt.LoadDocument(own, valid, nodes, built);
      case Unload(d) =>
        var found := rt.UnloadDocument(d);
      case Reload(_, _, _, _) => FillDocument(rt, step);
      case BuildNodes(_, _) => FillDocument(rt, step);
      case Preload(_, _, _) => MoveByHand(rt, step);
      case GiveBack(_, _, _) => MoveByHand(rt, step);
      case Register(_, _, _, _, _) => ChangeImages(rt, step);
      case Unregister(_, _) => ChangeImages(rt, step);
      case ChangeSource(_, _, _, _, _, _, _, _) => ChangeSourceOf(rt, step);
    }
  }

  /** A loaded document is filled again, or grows by some nodes. */
  method FillDocument(rt: ImageRuntime, step: Step)
    requires rt.Valid() && rt.HeldOnce() && rt.IdsIssued() && (step.Reload? || step.BuildNodes?)
    modifies rt
    ensures rt.Valid() && rt.HeldOnce() && rt.IdsIssued() && rt.ledgers.Keys == old(rt.ledgers.Keys)
    ensures old(rt.nextDocument) <= rt.nextDocument && old(rt.refusals) <= rt.refusals
    ensures StepDone(step, old(Now(rt)), Now(rt), None)
  {
    hide DistinctKeys, View, LedgerOk, Holders, ResidencyOk, KeysOf, AutomaticOnce, LoadedFor,
      PartlyLoadedFor, AllImages, Grown, Refreshed, ShownBy;
    match step {
      case Reload(d, own, valid, nodes) =>
        ghost var all;
        var ok;
        ok, all := rt.ReloadDocument(d, own, valid, nodes);
      case BuildNodes(d, nodes) =>
        if d in rt.ledgers {
          var ok := rt.PreloadForNodes(d, nodes);
        }
    }
  }

  /** A list of images is taken or given back by hand. */
  method MoveByHand(rt: ImageRuntime, step: Step)
    requires rt.Valid() && rt.HeldOnce() && rt.IdsIssued() && (step.Preload? || step.GiveBack?)
    modifies rt
    ensures rt.Valid() && rt.HeldOnce() && rt.IdsIssued() && rt.ledgers.Keys == old(rt.ledgers.Keys)
    ensures old(rt.nextDocument) <= rt.nextDocument && old(rt.refusals) <= rt.refusals
    ensures StepDone(step, old(Now(rt)), Now(rt), None)
  {
    hide DistinctKeys, View, LedgerOk, Holders, ResidencyOk, KeysOf, AutomaticOnce, Grown, AllShown,
      Holding, ReleaseFirst, ReleasedRefreshed, ShownHeld;
    match step {
      case Preload(d, requests, shown) =>
        ghost var acquired;
        var r;
        r, acquired := rt.PreloadImages(d, requests, shown);
      case GiveBack(d, requests, shown) =>
        var r, refused := rt.ReleasePreloadedImages(d, requests, shown);
    }
  }

  /** An image is registered or unregistered for all documents. */
  method ChangeImages(rt: ImageRuntime, step: Step)
    requires rt.Valid() && rt.HeldOnce() && rt.IdsIssued() && (step.Register? || step.Unregister?)
    modifies rt
    ensures rt.Valid() && rt.HeldOnce() && rt.IdsIssued() && rt.ledgers.Keys == old(rt.ledgers.Keys)
    ensures old(rt.nextDocument) <= rt.nextDocument && old(rt.refusals) <= rt.refusals
    ensures StepDone(step, old(Now(rt)), Now(rt), None)
  {
    hide DistinctKeys, View, LedgerOk, Holders, ResidencyOk, KeysOf, AutomaticOnce, Grown, ShownIn,
      ShownHeld, Release, TakenOnce, RaiseFlag;
    match step {
      case Register(r, referencing, newRequired, oldRequired, images) =>
        var affected := rt.Documents(referencing);
        var ok := rt.RegisterImage(r, affected, newRequired, oldRequired, images);
      case Unregister(image, images) =>
        var documents := rt.Documents(rt.ledgers.Keys);
        var found := rt.UnregisterImage(image, documents, images);
    }
  }

  /** A node shows another image. */
  method ChangeSourceOf(rt: ImageRuntime, step: Step)
    requires rt.Valid() && rt.HeldOnce() && rt.IdsIssued() && step.ChangeSource?
    modifies rt
    ensures rt.Valid() && rt.HeldOnce() && rt.IdsIssued() && rt.ledgers.Keys == old(rt.ledgers.Keys)
    ensures old(rt.nextDocument) <= rt.nextDocument && old(rt.refusals) <= rt.refusals
    ensures StepDone(step, old(Now(rt)), Now(rt), None)
  {
    hide DistinctKeys, View, LedgerOk, Holders, ResidencyOk, KeysOf, AutomaticOnce, Acquire, Release;
    match step {
      case ChangeSource(d, previous, next, previousNamed, nextNamed, sourceChanged, required, elsewhere) =>
        if d in rt.ledgers {
          var ok := rt.UpdateImageSource(d, previous, next, previousNamed, nextNamed, sourceChanged, required,
                                         elsewhere);
        }
    }
  }

  /** Loads give different ids, and only what is loaded and not unloaded since has a ledger. */
  predicate IdsDiffer(ids: seq<Option<DocumentId>>) {
    forall i, j :: 0 <= i < j < |ids| && ids[i].Some? && ids[j].Some? ==> ids[i].value < ids[j].value
  }

  /** No load of a valid document failed. */
  predicate AllLoaded(steps: seq<Step>, ids: seq<Option<DocumentId>>, n: nat)
    requires n <= |steps| && n <= |ids|
  {
    forall i :: 0 <= i < n && steps[i].Load? && steps[i].valid && steps[i].built ==> ids[i].Some?
  }

  /**
   * From a fresh runtime on, whatever is asked of it and whatever the backend refuses: every image is resident once
   * for each loaded document that has a record of it, every record is held by somebody, no image has two automatic
   * references in one document, exactly the loaded documents have ledgers, and with the last of them everything has
   * left the backend. Where the backend refused nothing, every valid document was loaded.
   */
  method Run(steps: seq<Step>)
    returns (rt: ImageRuntime, ids: seq<Option<DocumentId>>, ghost moments: seq<Moment>)
    ensures fresh(rt) && rt.Valid() && rt.HeldOnce()
    ensures |ids| == |steps| && IdsDiffer(ids) && rt.ledgers.Keys == LoadedAfter(steps, ids, |steps|)
    ensures rt.ledgers.Keys == {} ==> rt.resident == multiset{}
    ensures rt.refusals == 0 ==> AllLoaded(steps, ids, |steps|)
    ensures |moments| == |steps| + 1 && moments[0] == Moment(map[], map[], 0) && moments[|steps|] == Now(rt)
    ensures forall i :: 0 <= i < |steps| ==> StepDone(steps[i], moments[i], moments[i + 1], ids[i])
  {
    hide LedgerOk, ResidencyOk, AutomaticOnce, StepDone;
    rt := new ImageRuntime();
    ids, moments := [], [Now(rt)];
    for i := 0 to |steps|
      invariant fresh(rt) && rt.Valid() && rt.HeldOnce() && rt.IdsIssued() && |ids| == i
      invariant rt.ledgers.Keys == LoadedAfter(steps, ids, i)
      invariant IdsDiffer(ids) && forall j :: 0 <= j < i && ids[j].Some? ==> ids[j].value < rt.nextDocument
      invariant rt.refusals == 0 ==> AllLoaded(steps, ids, i)
      invariant |moments| == i + 1 && moments[0] == Moment(map[], map[], 0) && moments[i] == Now(rt)
      invariant forall k :: 0 <= k < i ==> StepDone(steps[k], moments[k], moments[k + 1], ids[k])
    {
      var id := Perform(rt, steps[i]);
      LoadedExtends(steps, ids, ids + [id], i);
      ids, moments := ids + [id], moments + [Now(rt)];
    }
    if rt.ledgers.Keys == {} {
      assert rt.ledgers == map[];
      NothingLeft(rt.resident);
    }
  }
}
