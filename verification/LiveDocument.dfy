/** The backend's own object tree and the live document built on it. */
module LiveDocuments {
  import opened Text
  import opened Forest
  import opened BuildSteps

  datatype BuildError = PreloadFailed | CreateFailed | UidsExhausted
  datatype ViewError =
    | TemplateNotFound | EmptyParentPath | BadInstanceId | ParentNotFound | AlreadyExists
    | BuildFailed(cause: BuildError)
  datatype ScreenError =
    | ScreenNotFound | RootNotFound | ResourcesInvalid | ImagesRefused
    | ScreenBuildFailed(cause: BuildError)
  datatype Result<T, E> = Success(value: T) | Failure(error: E)

  predicate BuildFails(r: Result<string, ViewError>) {
    r.Failure? && r.error.BuildFailed?
  }

  predicate ScreenBuildFails<T>(r: Result<T, ScreenError>) {
    r.Failure? && r.error.ScreenBuildFailed?
  }

  /** How many refused requests a failed build stands for; running out of uids is nobody's refusal. */
  function Blame(cause: BuildError): nat {
    if cause.UidsExhausted? then 0 else 1
  }

  /** The same for a rebuild, whose image pass can be refused as well. */
  function RebuildBlame(r: Result<(), ScreenError>): nat {
    if ScreenBuildFails(r) then Blame(r.error.cause) else if r.Failure? && r.error.ImagesRefused? then 1 else 0
  }

  /** A backend tree without `handle` and everything below it. */
  function Prune(parents: map<Handle, Handle>, handle: Handle): (r: map<Handle, Handle>)
    ensures forall h :: h in r ==> h in parents && r[h] == parents[h]
    ensures forall h :: h in r <==> h in parents && !Below(parents, h, handle)
  {
    map h | h in parents && !Below(parents, h, handle) :: parents[h]
  }

  /**
   * A backend that hands out increasing handles, may refuse any creation, and deletes whole subtrees. It counts what it
   * refused.
   */
  class Backend {
    var parents: map<Handle, Handle>
    var nextHandle: Handle
    var destroyCalls: seq<Handle>
    var refusals: nat

    predicate Valid()
      reads this
    {
      && 0 < nextHandle
      && forall h :: h in parents ==> 0 < h < nextHandle && parents[h] < h
    }

    method CreateNode(parent: Handle) returns (handle: Handle)
      requires Valid()
      modifies this
      ensures Valid() && destroyCalls == old(destroyCalls)
      ensures handle == 0 ==>
        parents == old(parents) && nextHandle == old(nextHandle) && refusals == old(refusals) + 1
      ensures handle != 0 ==>
        && refusals == old(refusals)
        && handle == old(nextHandle) && nextHandle == handle + 1
        && parents == old(parents)[handle := parent]
        && (parent == 0 || parent in old(parents))
    {
      handle := 0;
      if parent != 0 && parent !in parents {
        refusals := refusals + 1;
        return;
      }
      if * {
        refusals := refusals + 1;
        return;
      }
      handle := nextHandle;
      parents := parents[handle := parent];
      nextHandle := nextHandle + 1;
    }

    /** Deletes the node and everything below it. */
    method DestroyNode(handle: Handle)
      requires Valid()
      modifies this
      ensures Valid() && nextHandle == old(nextHandle) && refusals == old(refusals)
      ensures destroyCalls == old(destroyCalls) + [handle]
      ensures parents == Prune(old(parents), handle)
    {
      parents := Prune(parents, handle);
      destroyCalls := destroyCalls + [handle];
    }
  }

  // ---- The backend tree mirrors the node forest ----

  predicate MirrorNode(nodes: map<Uid, NodeRecord>, parents: map<Handle, Handle>, u: Uid)
    requires u in nodes
  {
    var n := nodes[u];
    n.handle in parents && parents[n.handle] == (if n.parent in nodes then nodes[n.parent].handle else 0)
  }

  /** Live nodes sit in the backend under their parents' handles; only leaked handles hang off them unrecorded. */
  predicate Mirrors(f: TreeState, parents: map<Handle, Handle>, leaked: set<Handle>) {
    && (forall u {:trigger MirrorNode(f.nodes, parents, u)} :: u in f.nodes ==> MirrorNode(f.nodes, parents, u))
    && (forall h :: h in parents && parents[h] in f.handleToUid ==> h in f.handleToUid || h in leaked)
    && (forall h :: h in leaked ==> h != 0 && h !in f.handleToUid)
    && (forall h :: h in parents ==> parents[h] !in leaked)
  }

  /** Ancestry in the backend and in the forest agree. */
  lemma MirrorBelow(f: TreeState, parents: map<Handle, Handle>, leaked: set<Handle>, v: Uid, u: Uid)
    requires Indexed(f) && Mirrors(f, parents, leaked) && u in f.nodes && v in f.nodes
    requires forall h :: h in parents ==> 0 < h && parents[h] < h
    ensures Below(parents, f.nodes[v].handle, f.nodes[u].handle) <==> Under(f.nodes, v, u)
    decreases v
  {
    assert ParentOk(f.nodes, v) && MirrorNode(f.nodes, parents, v);
    var p := f.nodes[v].parent;
    if v != u {
      assert f.nodes[v].handle != f.nodes[u].handle;
      if p in f.nodes {
        MirrorBelow(f, parents, leaked, p, u);
      } else {
        assert !Below(parents, 0, f.nodes[u].handle);
        assert !Below(ParentsOf(f.nodes), 0, u);
      }
    }
  }

  /** Deleting a subtree on both sides keeps the mirror. */
  lemma MirrorRemove(f: TreeState, parents: map<Handle, Handle>, leaked: set<Handle>, u: Uid)
    requires Indexed(f) && Mirrors(f, parents, leaked) && u in f.nodes
    requires forall h :: h in parents ==> 0 < h && parents[h] < h
    ensures Mirrors(RemoveSubtree(f, u),
                    Prune(parents, f.nodes[u].handle), leaked)
  {
    var g := RemoveSubtree(f, u);
    var rest := Prune(parents, f.nodes[u].handle);
    assert 0 !in f.nodes;
    forall v | v in g.nodes ensures MirrorNode(g.nodes, rest, v) {
      assert ParentOk(f.nodes, v) && MirrorNode(f.nodes, parents, v);
      MirrorBelow(f, parents, leaked, v, u);
      assert g.nodes[v].parent == f.nodes[v].parent && g.nodes[v].handle == f.nodes[v].handle;
      var p := g.nodes[v].parent;
      if p in f.nodes {
        assert g.nodes[p].handle == f.nodes[p].handle;
      }
    }
    forall h | h in rest && rest[h] in g.handleToUid ensures h in g.handleToUid || h in leaked {
      if h in f.handleToUid {
        MirrorBelow(f, parents, leaked, f.handleToUid[h], u);
      }
    }
  }

  lemma MirrorAdd(f: TreeState, d: NodeDef, path: string, handle: Handle, parent: Uid, dynamic: bool,
                  parents: map<Handle, Handle>, leaked: set<Handle>)
    requires Indexed(f) && Mirrors(f, parents, leaked) && CanAdd(f, d, path, handle, parent, dynamic)
    requires handle !in parents && (forall h :: h in parents ==> parents[h] != handle) && handle !in leaked
    ensures Mirrors(AddNode(f, d, path, handle, parent, dynamic),
                    parents[handle := if parent in f.nodes then f.nodes[parent].handle else 0], leaked)
  {
    assert f.nextUid !in f.nodes && 0 !in f.nodes;
    var g := AddNode(f, d, path, handle, parent, dynamic);
    var grown := parents[handle := if parent in f.nodes then f.nodes[parent].handle else 0];
    forall u | u in g.nodes ensures MirrorNode(g.nodes, grown, u) {
      if u in f.nodes {
        assert MirrorNode(f.nodes, parents, u) && ParentOk(f.nodes, u);
      }
    }
    assert parent in f.nodes ==> f.nodes[parent].handle in f.handleToUid;
    assert 0 !in leaked;
  }

  /** Everything storing one node keeps. */
  lemma PlacedNode(f: TreeState, d: NodeDef, path: string, handle: Handle, parent: Uid, dynamic: bool,
                   parents: map<Handle, Handle>, leaked: set<Handle>)
    requires WellFormed(f) && Mirrors(f, parents, leaked) && CanAdd(f, d, path, handle, parent, dynamic)
    requires handle !in parents && (forall h :: h in parents ==> parents[h] != handle) && handle !in leaked
    ensures var g := AddNode(f, d, path, handle, parent, dynamic);
            && WellFormed(g) && f.nextUid !in f.nodes
            && g.nodes[f.nextUid] == NodeRecord(d, path, handle, parent, [], dynamic)
            && Mirrors(g, parents[handle := if parent in f.nodes then f.nodes[parent].handle else 0], leaked)
  {
    MirrorAdd(f, d, path, handle, parent, dynamic, parents, leaked);
    AddNodeWellFormed(f, d, path, handle, parent, dynamic);
  }

  /** Backend objects of other documents are never below one of this document's nodes. */
  lemma ForeignKept(f: TreeState, parents: map<Handle, Handle>, leaked: set<Handle>, u: Uid, h: Handle)
    requires Indexed(f) && Mirrors(f, parents, leaked) && u in f.nodes
    requires h !in f.handleToUid && h !in leaked
    ensures !Below(parents, h, f.nodes[u].handle)
    decreases h
  {
    if Below(parents, h, f.nodes[u].handle) {
      ForeignKept(f, parents, leaked, u, parents[h]);
    }
  }

  // ---- What an operation may do to the backend objects of others ----

  /** One document's view of the backend: the tree, the next handle, the handles the document may answer for. */
  datatype Side = Side(parents: map<Handle, Handle>, next: Handle, own: set<Handle>)

  /** Foreign handles stay where they are; what is new got a fresh handle and hangs below this document's handles. */
  ghost predicate Touches(a: Side, b: Side) {
    && a.next <= b.next
    && (forall h :: h in a.parents ==> h < a.next)
    && (forall h :: h in a.parents && h in b.parents ==> b.parents[h] == a.parents[h])
    && (forall h :: h in a.parents && h !in a.own ==> h in b.parents)
    && (forall h :: h in b.own ==> h in a.own || a.next <= h)
    && (forall h :: h in b.parents && h !in a.parents ==>
          a.next <= h && (b.parents[h] == 0 || b.parents[h] in a.own || a.next <= b.parents[h]))
  }

  lemma TouchesSelf(a: Side, own: set<Handle>)
    requires (forall h :: h in a.parents ==> h < a.next) && own <= a.own
    ensures Touches(a, a.(own := own))
  {
  }

  lemma TouchesTrans(a: Side, b: Side, c: Side)
    requires Touches(a, b) && Touches(b, c)
    ensures Touches(a, c)
  {
  }

  lemma TouchesCreate(a: Side, parent: Handle, own: set<Handle>)
    requires (forall h :: h in a.parents ==> h < a.next) && (parent == 0 || parent in a.own) && own <= a.own + {a.next}
    ensures Touches(a, Side(a.parents[a.next := parent], a.next + 1, own))
  {
  }

  lemma TouchesPrune(f: TreeState, parents: map<Handle, Handle>, leaked: set<Handle>, u: Uid, next: Handle)
    requires Indexed(f) && Mirrors(f, parents, leaked) && u in f.nodes
    requires forall h :: h in parents ==> 0 < h < next && parents[h] < h
    ensures Touches(Side(parents, next, f.handleToUid.Keys + leaked),
                    Side(Prune(parents, f.nodes[u].handle), next, RemoveSubtree(f, u).handleToUid.Keys + leaked))
  {
    hide Below;
    PrunedExactly(f, parents, leaked, u);
  }

  /** Another document on the same backend keeps its mirror, whatever this document did. */
  lemma OtherMirrorKept(f: TreeState, leaked: set<Handle>, a: Side, b: Side)
    requires Indexed(f) && Mirrors(f, a.parents, leaked) && Touches(a, b)
    requires a.own !! f.handleToUid.Keys + leaked && 0 !in a.own
    requires forall h :: h in leaked ==> h < a.next
    ensures Mirrors(f, b.parents, leaked) && b.own !! f.handleToUid.Keys + leaked
  {
    hide LinksOk, UidsOk, PathsSound, NamesOk;
    forall u | u in f.nodes ensures MirrorNode(f.nodes, b.parents, u) && f.nodes[u].handle < a.next {
      assert MirrorNode(f.nodes, a.parents, u);
    }
    assert forall h :: h in f.handleToUid ==> h < a.next && h != 0;
  }

  function HandlesOf(nodes: map<Uid, NodeRecord>, uids: seq<Uid>): seq<Handle> {
    seq(|uids|, i requires 0 <= i < |uids| => if uids[i] in nodes then nodes[uids[i]].handle else 0)
  }

  /** Pruning the backend at `u` takes the handles of exactly the nodes under `u` and no foreign handle. */
  lemma PrunedExactly(f: TreeState, parents: map<Handle, Handle>, leaked: set<Handle>, u: Uid)
    requires Indexed(f) && Mirrors(f, parents, leaked) && u in f.nodes
    requires forall h :: h in parents ==> 0 < h && parents[h] < h
    ensures var rest := Prune(parents, f.nodes[u].handle);
            && (forall v :: v in f.nodes ==> (f.nodes[v].handle in rest <==> !Under(f.nodes, v, u)))
            && (forall h :: h in parents && h !in f.handleToUid && h !in leaked ==> h in rest)
  {
    forall v | v in f.nodes
      ensures f.nodes[v].handle in Prune(parents, f.nodes[u].handle) <==> !Under(f.nodes, v, u)
    {
      assert MirrorNode(f.nodes, parents, v);
      MirrorBelow(f, parents, leaked, v, u);
    }
    forall h | h in parents && h !in f.handleToUid && h !in leaked ensures h in Prune(parents, f.nodes[u].handle) {
      ForeignKept(f, parents, leaked, u, h);
    }
  }

  /** Part-way through destroying the roots: `f` and `parents` after the first `i` of them. */
  predicate Drained(f0: TreeState, parents0: map<Handle, Handle>, roots: seq<Uid>, leaked: set<Handle>, i: nat,
                    f: TreeState, parents: map<Handle, Handle>)
    requires i <= |roots|
  {
    && f.nodes == DropRoots(f0.nodes, roots[..i]) && f.screenRoots == f0.screenRoots && f.nextUid == f0.nextUid
    && (forall h :: h in f.handleToUid ==> h in f0.handleToUid)
    && (forall u :: u in f0.nodes && u !in f.nodes ==> f0.nodes[u].handle !in parents)
    && (forall h :: h in parents0 && h !in f0.handleToUid && h !in leaked ==> h in parents)
  }

  lemma DrainStart(f0: TreeState, parents0: map<Handle, Handle>, roots: seq<Uid>, leaked: set<Handle>)
    ensures Drained(f0, parents0, roots, leaked, 0, f0, parents0)
  {
    assert DropRoots(f0.nodes, roots[..0]) == f0.nodes;
  }

  lemma DrainStep(f0: TreeState, parents0: map<Handle, Handle>, roots: seq<Uid>, leaked: set<Handle>, i: nat,
                  f: TreeState, parents: map<Handle, Handle>)
    requires Indexed(f0) && Indexed(f) && Mirrors(f, parents, leaked) && i < |roots|
    requires forall h :: h in parents ==> 0 < h && parents[h] < h
    requires forall u :: u in roots ==> u in f0.nodes && f0.nodes[u].parent == 0
    requires forall i, j :: 0 <= i < j < |roots| ==> roots[i] != roots[j]
    requires Drained(f0, parents0, roots, leaked, i, f, parents)
    ensures roots[i] in f.nodes && f.nodes[roots[i]] == f0.nodes[roots[i]]
    ensures Drained(f0, parents0, roots, leaked, i + 1, RemoveSubtree(f, roots[i]),
                    Prune(parents, f.nodes[roots[i]].handle))
  {
    assert 0 !in f0.nodes;
    RootsIndependent(f0.nodes, roots, i);
    DropRootsStep(f0.nodes, f, roots, i);
    PrunedExactly(f, parents, leaked, roots[i]);
    var g := RemoveSubtree(f, roots[i]);
    forall u | u in f0.nodes && u !in g.nodes ensures f0.nodes[u].handle !in Prune(parents, f.nodes[roots[i]].handle) {
      if u in f.nodes {
        assert f.nodes[u] == f0.nodes[u];
        assert Under(f.nodes, u, roots[i]);
      }
    }
  }

  lemma DrainEnd(f0: TreeState, parents0: map<Handle, Handle>, roots: seq<Uid>, leaked: set<Handle>, f: TreeState,
                 parents: map<Handle, Handle>)
    requires Indexed(f0) && Indexed(f) && Drained(f0, parents0, roots, leaked, |roots|, f, parents)
    requires forall u :: u in f0.nodes && f0.nodes[u].parent == 0 ==> u in roots
    ensures f == TreeState(map[], map[], map[], f0.screenRoots, f0.nextUid)
  {
    assert roots[..|roots|] == roots;
    DropAllRoots(f0.nodes, roots);
    assert f.handleToUid == map[] && f.pathToUid == map[];
  }

  lemma DrainedHandles(f0: TreeState, parents0: map<Handle, Handle>, roots: seq<Uid>, leaked: set<Handle>, f: TreeState,
                       parents: map<Handle, Handle>)
    requires Drained(f0, parents0, roots, leaked, |roots|, f, parents) && f.nodes == map[]
    ensures forall u :: u in f0.nodes ==> f0.nodes[u].handle !in parents
    ensures forall h :: h in parents0 && h !in f0.handleToUid && h !in leaked ==> h in parents
  {
  }

  lemma NoNewPaths(f: TreeState, d: NodeDef, path: string)
    ensures NewPathsIn(f, f, d, path)
  {
  }

  lemma NewHandleTouches(f: TreeState, parents: map<Handle, Handle>, leaked: set<Handle>, handle: Handle, parent: Uid,
                         b: Side)
    requires HandlesOk(f) && forall h :: h in parents ==> h < handle
    requires b == Side(parents[handle := if parent in f.nodes then f.nodes[parent].handle else 0], handle + 1, b.own)
    requires b.own == f.handleToUid.Keys + {handle} + leaked
    ensures Touches(Side(parents, handle, f.handleToUid.Keys + leaked), b)
  {
    var a := Side(parents, handle, f.handleToUid.Keys + leaked);
    TouchesCreate(a, if parent in f.nodes then f.nodes[parent].handle else 0, b.own);
  }

  /** Nothing but the screen-root invariant looks at the screen roots. */
  lemma OnlyRootsChanged(f: TreeState, roots: map<string, Uid>, parents: map<Handle, Handle>, leaked: set<Handle>)
    requires Indexed(f) && Mirrors(f, parents, leaked)
    ensures var g := f.(screenRoots := roots); Indexed(g) && Mirrors(g, parents, leaked) && (Clean(f) <==> Clean(g))
  {
  }

  lemma OutcomeKeepsRoots(f: TreeState, g: TreeState, d: NodeDef, path: string, parent: Uid)
    requires BuildOutcome(f, g, d, path, parent)
    ensures g.screenRoots == f.screenRoots && g.(screenRoots := f.screenRoots) == g
  {
  }

  /** A handle the document never recorded is remembered as leaked. */
  lemma MirrorLeak(f: TreeState, parents: map<Handle, Handle>, leaked: set<Handle>, handle: Handle, parent: Handle)
    requires Mirrors(f, parents, leaked) && handle !in parents && handle !in f.handleToUid && handle != 0
    requires (parent == 0 || parent in f.handleToUid) && forall h :: h in parents ==> parents[h] != handle
    ensures Mirrors(f, parents[handle := parent], leaked + {handle})
  {
    forall u | u in f.nodes ensures MirrorNode(f.nodes, parents[handle := parent], u) {
      assert MirrorNode(f.nodes, parents, u);
    }
  }

  lemma ParentHandle(f: TreeState, parent: Uid, handle: Handle)
    requires Indexed(f)
    requires if parent == 0 then handle == 0 else parent in f.nodes && f.nodes[parent].handle == handle
    ensures handle == (if parent in f.nodes then f.nodes[parent].handle else 0)
    ensures handle == 0 || handle in f.handleToUid
  {
    assert 0 !in f.nodes;
  }

  /** A handle the backend has just issued is not in the handle index. */
  lemma FreshHandle(f: TreeState, parents: map<Handle, Handle>, leaked: set<Handle>, handle: Handle)
    requires Indexed(f) && Mirrors(f, parents, leaked) && handle !in parents
    ensures handle !in f.handleToUid
  {
    forall u | u in f.nodes ensures f.nodes[u].handle in parents {
      assert MirrorNode(f.nodes, parents, u);
    }
  }

  predicate DefinitionsFit(screens: map<string, NodeDef>, templates: map<string, NodeDef>) {
    && (forall s :: s in screens ==> screens[s].id == s && screens[s].screen && Validated(screens[s]))
    && (forall t :: t in templates ==> templates[t].id == t && !templates[t].screen && Validated(templates[t]))
  }

  // ---- Rebuilding the screens ----

  predicate AllSlashFree(definitions: map<string, NodeDef>) {
    forall s :: s in definitions ==> IdsSlashFree(definitions[s])
  }

  /** Only nodes from `first` on, under a clean index when no id holds a slash. */
  predicate Partly(f: TreeState, first: nat, screens: map<string, NodeDef>) {
    && (AllSlashFree(screens) ==> Clean(f))
    && (forall u :: u in f.nodes ==> first != 0 && first <= u)
    && (f.nextUid != 0 ==> first != 0 && first <= f.nextUid)
  }

  /** Every screen root is a complete instance of its screen, and there is no other root. */
  predicate Rebuilt(f: TreeState, first: nat, screens: map<string, NodeDef>) {
    && Partly(f, first, screens)
    && (forall s :: s in f.screenRoots ==>
          s in screens && Built(f.nodes, f.screenRoots[s], screens[s], "/" + s, 0, false))
    && RootsListed(f)
  }

  predicate RootsListed(f: TreeState) {
    forall u :: u in f.nodes && f.nodes[u].parent == 0 ==> f.nodes[u].NodeId() in f.screenRoots
  }

  /** The path index is a bijection and every parentless node is the root of a listed screen. */
  predicate Settled(f: TreeState) {
    Clean(f) && RootsListed(f)
  }

  lemma ViewKeepsListed(f: TreeState, g: TreeState, d: NodeDef, path: string, parent: Uid)
    requires Indexed(f) && RootsListed(f) && BuildOutcome(f, g, d, path, parent) && parent in f.nodes
    ensures RootsListed(g)
  {
    hide UidsOk, HandlesOk, PathsSound, NamesOk, Clean, PathsComplete, IdsSlashFree, NewPathsIn;
    NoZeroNode(f);
    forall u | u in g.nodes && g.nodes[u].parent == 0 ensures g.nodes[u].NodeId() in g.screenRoots {
      if u !in f.nodes {
        RootUnder(g.nodes, u, f.nextUid);
      } else {
        assert f.nodes[u].NodeId() in f.screenRoots;
      }
    }
  }

  /** A view leaves a settled document settled, whether or not its build came to an end. */
  lemma ViewSettles(f: TreeState, g: TreeState, d: NodeDef, path: string, parent: Uid)
    requires Indexed(f) && BuildOutcome(f, g, d, path, parent) && parent in f.nodes && path !in f.pathToUid
    ensures Settled(f) && IdsSlashFree(d) ==> Settled(g)
    ensures Built(g.nodes, f.nextUid, d, path, parent, true) ==> path in g.pathToUid && g.pathToUid[path] == f.nextUid
  {
    hide Indexed, Clean, RootsListed;
    if Settled(f) && IdsSlashFree(d) {
      ViewKeepsListed(f, g, d, path, parent);
      OutcomeIsClean(f, g, d, path, parent);
    }
  }

  lemma RemovalKeepsListed(f: TreeState, u: Uid)
    requires RootsListed(f) && u in f.nodes
    ensures RootsListed(RemoveSubtree(f, u))
  {
    hide Below;
    var g := RemoveSubtree(f, u);
    assert forall v :: v in g.nodes ==>
      g.nodes[v].NodeId() == f.nodes[v].NodeId() && g.nodes[v].parent == f.nodes[v].parent;
  }

  lemma OneRootPerName(f: TreeState, v: Uid, r: Uid)
    requires Indexed(f) && Clean(f) && v in f.nodes && r in f.nodes && f.nodes[v].parent == 0 && f.nodes[r].parent == 0
    ensures f.nodes[v].NodeId() == f.nodes[r].NodeId() ==> v == r
  {
    hide LinksOk, HandlesOk, NodeRecord.NodeId;
    NoZeroNode(f);
    assert NameOk(f.nodes, v) && NameOk(f.nodes, r);
  }

  /** A screen has one root, so unlisting the root that is destroyed leaves the others listed. */
  lemma DroppedRootKeepsListed(f: TreeState, s: string)
    requires WellFormed(f) && Settled(f) && s in f.screenRoots
    ensures RootsListed(RemoveSubtree(f, f.screenRoots[s]).(screenRoots := f.screenRoots - {s}))
  {
    hide LinksOk, UidsOk, HandlesOk, PathsSound;
    var r := f.screenRoots[s];
    var g := RemoveSubtree(f, r).(screenRoots := f.screenRoots - {s});
    NoZeroNode(f);
    assert Under(f.nodes, r, r);
    forall v | v in g.nodes && g.nodes[v].parent == 0 ensures g.nodes[v].NodeId() in g.screenRoots {
      assert g.nodes[v].NodeId() == f.nodes[v].NodeId();
      OneRootPerName(f, v, r);
    }
  }

  /** A failed screen build keeps the roots listed exactly when it stored nothing. */
  lemma FailedScreenBuild(f: TreeState, g: TreeState, d: NodeDef, s: string)
    requires Indexed(f) && Settled(f) && Indexed(g) && BuildOutcome(f, g, d, "/" + s, 0) && s !in f.screenRoots
    ensures Settled(g) <==> g == f
  {
    hide HandlesOk, PathsSound, Below, NewPathsIn;
    NoZeroNode(f);
    NoZeroNode(g);
    if f.nextUid in g.nodes {
      assert NameOk(g.nodes, f.nextUid);
      assert "" + "/" + g.nodes[f.nextUid].NodeId() == "/" + g.nodes[f.nextUid].NodeId();
      assert ("/" + g.nodes[f.nextUid].NodeId())[1..] == g.nodes[f.nextUid].NodeId() && ("/" + s)[1..] == s;
    }
  }

  /**
   * A screen build that stops does no harm, whatever it is that stops it, exactly when the screen has no children or
   * the uids have run out: otherwise the root can be stored, unlisted, and its first child refused.
   */
  lemma ScreenBuildHarmlessExactly(f: TreeState, d: NodeDef, s: string)
    requires Indexed(f) && Settled(f) && s == d.id && s != "" && s !in f.screenRoots
    ensures (forall g :: Builds(f, g, d, "/" + s, 0, false, false) ==> Settled(g)) <==>
            d.children == [] || f.nextUid == 0
  {
    hide Indexed, Clean, RootsListed, Builds;
    if d.children == [] {
      forall g | Builds(f, g, d, "/" + s, 0, false, false) ensures Settled(g) {
        ChildlessWhole(f, g, d, "/" + s, 0, false);
      }
    } else if f.nextUid == 0 {
      forall g | Builds(f, g, d, "/" + s, 0, false, false) ensures Settled(g) {
        NothingStored(f, g, d, "/" + s, 0, false);
      }
    } else {
      var g := FirstChildRefused(f, d, s);
    }
  }

  lemma FirstChildRefused(f: TreeState, d: NodeDef, s: string) returns (g: TreeState)
    requires Indexed(f) && Settled(f) && s == d.id && s != "" && s !in f.screenRoots
    requires d.children != [] && f.nextUid != 0
    ensures Builds(f, g, d, "/" + s, 0, false, false) && !Settled(g)
  {
    hide LinksOk, UidsOk, HandlesOk, PathsSound, NamesOk, Clean, Builds, BuildsOn, BuildsUpTo;
    NoZeroNode(f);
    var path := "/" + s;
    var h := UnusedHandle(f.handleToUid.Keys);
    assert BasePath(f.nodes, 0) + "/" + s == path;
    g := AddNode(f, d, path, h, 0, false);
    NoChildYet(g, d, path, f.nextUid);
    Refused(g, d.children[0], path + "/" + d.children[0].id, f.nextUid, false);
    OneMoreChild(g, g, g, d, path, f.nextUid, 0, false);
    Stored(f, g, d, path, h, 0, false, false);
    assert g.nodes[f.nextUid].NodeId() == s;
  }

  lemma UnusedHandle(handles: set<Handle>) returns (h: Handle)
    ensures h != 0 && forall x :: x in handles ==> x < h
    decreases |handles|
  {
    if handles == {} {
      h := 1;
    } else {
      var x :| x in handles;
      var rest := UnusedHandle(handles - {x});
      h := if x < rest then rest else x + 1;
      assert forall y :: y in handles ==> y == x || y in handles - {x};
    }
  }

  lemma BuiltScreenSettles(f: TreeState, g: TreeState, h: TreeState, d: NodeDef, s: string)
    requires Indexed(f) && Settled(f) && BuildOutcome(f, g, d, "/" + s, 0) && s !in f.screenRoots
    requires IdsSlashFree(d) && NoSlash(s)
    requires h == g.(screenRoots := g.screenRoots[s := f.nextUid]) && RootsOk(h)
    ensures Settled(h)
  {
    hide Indexed, Clean, RootsListed, BuildOutcome, RootsOk;
    RootPathFree(f, s);
    RootsStayListed(f, g, h, s, d);
    SameClean(g, h);
    OutcomeIsClean(f, g, d, "/" + s, 0);
  }

  lemma OutcomeIsClean(f: TreeState, g: TreeState, d: NodeDef, path: string, parent: Uid)
    requires Clean(f) && IdsSlashFree(d) && path !in f.pathToUid && BuildOutcome(f, g, d, path, parent)
    ensures Clean(g)
  {
  }

  /** The screens an update builds: the eager ones, and the dynamic ones that were there. */
  function Wanted(screens: map<string, NodeDef>, order: seq<string>, instantiated: seq<string>): set<string>
    requires forall i :: 0 <= i < |order| ==> order[i] in screens
  {
    (set k | 0 <= k < |order| && !screens[order[k]].dynamicMount :: order[k])
    + (set k | 0 <= k < |instantiated| && instantiated[k] in screens && screens[instantiated[k]].dynamicMount
       :: instantiated[k])
  }

  lemma EmptyForest(f: TreeState, screens: map<string, NodeDef>)
    requires f.nodes == map[] && f.pathToUid == map[] && f.screenRoots == map[]
    ensures Rebuilt(f, f.nextUid, screens)
  {
  }

  /** A screen without a root has a free path. */
  lemma RootPathFree(f: TreeState, s: string)
    requires Indexed(f) && Clean(f) && RootsListed(f) && s !in f.screenRoots && NoSlash(s)
    ensures "/" + s !in f.pathToUid
  {
    hide HandlesOk, UidsOk, AfterLastSlash;
    forall p | p in f.nodes ensures f.nodes[p].path != "" {
      assert NameOk(f.nodes, p);
    }
    if "/" + s in f.pathToUid {
      var w := f.pathToUid["/" + s];
      assert NameOk(f.nodes, w) && ParentOk(f.nodes, w);
      var p := f.nodes[w].parent;
      assert "" + "/" + s == "/" + s;
      LastSegmentUnique("", s, BasePath(f.nodes, p), f.nodes[w].NodeId());
    }
  }

  lemma PartlyStep(f: TreeState, g: TreeState, first: nat, screens: map<string, NodeDef>, s: string)
    requires Indexed(f) && Rebuilt(f, first, screens) && s in screens && s !in f.screenRoots && screens[s].id == s
    requires BuildOutcome(f, g, screens[s], "/" + s, 0)
    ensures Partly(g, first, screens)
  {
    hide LinksOk, UidsOk, HandlesOk, PathsSound, NamesOk, Clean, Built, Below;
    if AllSlashFree(screens) {
      RootPathFree(f, s);
    }
  }

  lemma RebuiltStep(f: TreeState, g: TreeState, h: TreeState, first: nat, screens: map<string, NodeDef>, s: string)
    requires Indexed(f) && Rebuilt(f, first, screens) && s in screens && s !in f.screenRoots
    requires BuildOutcome(f, g, screens[s], "/" + s, 0) && Partly(g, first, screens)
    requires Built(g.nodes, f.nextUid, screens[s], "/" + s, 0, false)
    requires h == g.(screenRoots := g.screenRoots[s := f.nextUid]) && RootsOk(h)
    ensures Rebuilt(h, first, screens)
  {
    hide LinksOk, UidsOk, HandlesOk, PathsSound, NamesOk, RootsOk, Clean, Below, Built, BuildOutcome, Partly,
      RootsListed;
    PartlyRoots(g, h, first, screens);
    OutcomeKeepsRoots(f, g, screens[s], "/" + s, 0);
    RootsStayListed(f, g, h, s, screens[s]);
    forall x | x in h.screenRoots
      ensures x in screens && Built(h.nodes, h.screenRoots[x], screens[x], "/" + x, 0, false)
    {
      if x != s {
        OldRootsStay(f, g, s, screens[s], x, screens[x]);
      }
    }
  }

  lemma OldRootsStay(f: TreeState, g: TreeState, s: string, d: NodeDef, x: string, e: NodeDef)
    requires Indexed(f) && BuildOutcome(f, g, d, "/" + s, 0)
    requires x in f.screenRoots && Built(f.nodes, f.screenRoots[x], e, "/" + x, 0, false)
    ensures g.screenRoots == f.screenRoots && Built(g.nodes, f.screenRoots[x], e, "/" + x, 0, false)
  {
    hide UidsOk, HandlesOk, PathsSound, NamesOk, Clean, Below, Built;
    NoZeroNode(f);
    BuiltStable(f.nodes, g.nodes, f.screenRoots[x], e, "/" + x, 0, false);
  }

  lemma NewRootIsNext(f: TreeState, g: TreeState, d: NodeDef, path: string, u: Uid)
    requires Indexed(f) && BuildOutcome(f, g, d, path, 0) && u in g.nodes && g.nodes[u].parent == 0
    ensures if u in f.nodes then g.nodes[u] == f.nodes[u] else u == f.nextUid
  {
    hide LinksOk, UidsOk, HandlesOk, PathsSound, NamesOk, Clean, PathsComplete, IdsSlashFree;
    NoZeroNode(f);
    if u !in f.nodes {
      RootUnder(g.nodes, u, f.nextUid);
    }
  }

  lemma RootsStayListed(f: TreeState, g: TreeState, h: TreeState, s: string, d: NodeDef)
    requires Indexed(f) && RootsListed(f) && BuildOutcome(f, g, d, "/" + s, 0)
    requires h == g.(screenRoots := g.screenRoots[s := f.nextUid]) && RootsOk(h)
    ensures RootsListed(h)
  {
    hide Indexed, BuildOutcome;
    OutcomeKeepsRoots(f, g, d, "/" + s, 0);
    assert s in h.screenRoots && h.nodes[h.screenRoots[s]].NodeId() == s;
    forall u | u in h.nodes && h.nodes[u].parent == 0 ensures h.nodes[u].NodeId() in h.screenRoots {
      NewRootIsNext(f, g, d, "/" + s, u);
    }
  }

  lemma NoZeroNode(f: TreeState)
    requires Indexed(f)
    ensures 0 !in f.nodes
  {
  }

  lemma SameClean(g: TreeState, h: TreeState)
    requires g.nodes == h.nodes && g.pathToUid == h.pathToUid
    ensures Clean(g) <==> Clean(h)
  {
  }

  lemma RootUnder(nodes: map<Uid, NodeRecord>, u: Uid, root: Uid)
    requires u in nodes && nodes[u].parent == 0 && Under(nodes, u, root) && root != 0
    ensures u == root
  {
    assert !Below(ParentsOf(nodes), 0, root);
  }

  lemma PathStart(nodes: map<Uid, NodeRecord>, u: Uid)
    ensures RelativePath(nodes, u) + Reversed([]) == RelativePath(nodes, u)
  {
  }

  lemma PathStep(nodes: map<Uid, NodeRecord>, u: Uid, reversed: seq<string>)
    requires u in nodes && nodes[u].parent != 0 && nodes[u].parent < u
    ensures RelativePath(nodes, u) + Reversed(reversed)
         == RelativePath(nodes, nodes[u].parent) + Reversed(reversed + [nodes[u].NodeId()])
  {
    hide AfterLastSlash, NodeRecord.NodeId;
    var more := reversed + [nodes[u].NodeId()];
    assert more[..|reversed|] == reversed;
    assert Reversed(more) == [nodes[u].NodeId()] + Reversed(reversed);
  }

  lemma PathEnd(nodes: map<Uid, NodeRecord>, u: Uid)
    requires u in nodes && nodes[u].parent == 0
    ensures RelativePath(nodes, u) == []
  {
  }

  class LiveDocument {
    const backend: Backend
    var screens: map<string, NodeDef>
    var templates: map<string, NodeDef>
    var nodes: map<Uid, NodeRecord>
    var handleToUid: map<Handle, Uid>
    var pathToUid: map<string, Uid>
    var screenRoots: map<string, Uid>
    var nextUid: nat
    /** Handles the backend created just before the uid space turned out to be used up. */
    ghost var leaked: set<Handle>

    constructor (backend: Backend)
      requires backend.Valid()
      ensures Valid() && this.backend == backend && State() == TreeState(map[], map[], map[], map[], 1)
      ensures Clean(State())
    {
      this.backend := backend;
      screens, templates := map[], map[];
      nodes, handleToUid, pathToUid, screenRoots, nextUid := map[], map[], map[], map[], 1;
      leaked := {};
    }

    ghost function BackendSide(): Side
      reads this, backend
    {
      Side(backend.parents, backend.nextHandle, handleToUid.Keys + leaked)
    }

    function State(): TreeState
      reads this
    {
      TreeState(nodes, handleToUid, pathToUid, screenRoots, nextUid)
    }

    /** What document validation guarantees about the definitions. */
    predicate DefinitionsOk()
      reads this
    {
      DefinitionsFit(screens, templates)
    }

    ghost predicate Consistent()
      reads this, backend
    {
      backend.Valid() && Indexed(State()) && Mirrors(State(), backend.parents, leaked)
      && (forall h :: h in leaked ==> h < backend.nextHandle)
    }

    ghost predicate Valid()
      reads this, backend
    {
      Consistent() && RootsOk(State()) && DefinitionsOk()
    }

    /** Image preloading may refuse any node; the ledger behind it is modelled on its own. */
    method EnsureNodeImagesPreloaded(d: NodeDef) returns (ok: bool)
      modifies backend`refusals
      ensures backend.refusals == old(backend.refusals) + if ok then 0 else 1
    {
      ok := *;
      if !ok {
        backend.refusals := backend.refusals + 1;
      }
    }

    /** Where create_subtree puts a node: the computed path is the parent's path plus the node's own id. */
    predicate CanPlace(d: NodeDef, path: string, parentHandle: Handle, parent: Uid, dynamic: bool)
      reads this
    {
      && (if parent == 0 then parentHandle == 0 else parent in nodes && nodes[parent].handle == parentHandle)
      && var r := NodeRecord(d, path, 1, parent, [], dynamic);
         r.NodeId() != "" && path == BasePath(nodes, parent) + "/" + r.NodeId()
    }

    /** Records a freshly created backend node under the next uid and links it to its parent. */
    method StoreNode(d: NodeDef, path: string, handle: Handle, parent: Uid, dynamic: bool) returns (uid: Uid)
      requires Indexed(State()) && CanAdd(State(), d, path, handle, parent, dynamic)
      modifies this`nodes, this`handleToUid, this`pathToUid, this`nextUid
      ensures uid == old(nextUid) && State() == AddNode(old(State()), d, path, handle, parent, dynamic)
    {
      uid := nextUid;
      nextUid := NextAfter(uid);
      handleToUid := handleToUid[handle := uid];
      nodes := nodes[uid := NodeRecord(d, path, handle, parent, [], dynamic)];
      if path !in pathToUid {
        pathToUid := pathToUid[path := uid];
      }
      if parent != 0 {
        if parent in nodes {
          nodes := nodes[parent := nodes[parent].(children := nodes[parent].children + [uid])];
        }
      }
    }

    /** The part of create_subtree before a node is stored: preload its images, create the backend node, find a uid. */
    method RequestNode(d: NodeDef, parentHandle: Handle, parent: Uid) returns (r: Result<Handle, BuildError>)
      requires Valid()
      requires if parent == 0 then parentHandle == 0 else parent in nodes && nodes[parent].handle == parentHandle
      modifies this`leaked, backend
      ensures State() == old(State()) && backend.Valid() && backend.destroyCalls == old(backend.destroyCalls)
      ensures backend.refusals == old(backend.refusals) + if r.Failure? then Blame(r.error) else 0
      ensures r.Failure? ==> Mirrors(State(), backend.parents, leaked) && Touches(old(BackendSide()), BackendSide())
                             && forall h :: h in leaked ==> h < backend.nextHandle
      ensures r.Failure? && r.error.UidsExhausted? ==> nextUid == 0
      ensures r.Success? ==>
        && r.value == old(backend.nextHandle) && r.value != 0 && r.value !in handleToUid
        && backend.nextHandle == r.value + 1 && leaked == old(leaked) && nextUid != 0
        && backend.parents == old(backend.parents)[r.value := if parent in nodes then nodes[parent].handle else 0]
    {
      hide LinksOk, UidsOk, HandlesOk, PathsSound, NamesOk, RootsOk, Mirrors, Below, DefinitionsFit, Touches;
      ghost var before := State();
      ParentHandle(before, parent, parentHandle);
      TouchesSelf(BackendSide(), BackendSide().own);
      var ready := EnsureNodeImagesPreloaded(d);
      if !ready {
        return Failure(PreloadFailed);
      }
      var handle := backend.CreateNode(parentHandle);
      if handle == 0 {
        return Failure(CreateFailed);
      }
      FreshHandle(before, old(backend.parents), leaked, handle);
      if nextUid == 0 {
        MirrorLeak(before, old(backend.parents), leaked, handle, parentHandle);
        leaked := leaked + {handle};
        TouchesCreate(old(BackendSide()), parentHandle, BackendSide().own);
        return Failure(UidsExhausted);
      }
      r := Success(handle);
    }

    method CreateSubtree(d: NodeDef, parentHandle: Handle, parent: Uid, rootId: string, currentPath: seq<string>,
                         dynamic: bool)
      returns (r: Result<Uid, BuildError>)
      requires Valid() && Validated(d) && AllNonEmpty(currentPath)
      requires CanPlace(d, AbsoluteNodePath(rootId, currentPath), parentHandle, parent, dynamic)
      modifies this, backend
      ensures Valid() && screens == old(screens) && templates == old(templates)
      ensures BuildOutcome(old(State()), State(), d, AbsoluteNodePath(rootId, currentPath), parent)
      ensures backend.destroyCalls == old(backend.destroyCalls)
      ensures r.Success? ==>
        && r.value == old(nextUid)
        && Built(nodes, r.value, d, AbsoluteNodePath(rootId, currentPath), parent, dynamic)
      ensures Touches(old(BackendSide()), BackendSide())
      ensures backend.refusals == old(backend.refusals) + if r.Failure? then Blame(r.error) else 0
      ensures r.Failure? && r.error.UidsExhausted? ==> nextUid == 0
      ensures Builds(old(State()), State(), d, AbsoluteNodePath(rootId, currentPath), parent, dynamic, r.Success?)
      decreases d, 2
    {
      hide LinksOk, UidsOk, HandlesOk, PathsSound, NamesOk, RootsOk, Mirrors, Below, Clean, BuildOutcome, Built,
        DefinitionsFit, Validated, Touches, Builds, BuildsOn, AddNode;
      ghost var f, path := State(), AbsoluteNodePath(rootId, currentPath);
      NoBuildOutcome(f, d, path, parent);
      Refused(f, d, path, parent, dynamic);
      var ready := RequestNode(d, parentHandle, parent);
      if ready.Failure? {
        return Failure(ready.error);
      }
      r := InstallNode(d, ready.value, parent, rootId, currentPath, dynamic, old(backend.parents));
      Stored(f, State(), d, path, ready.value, parent, dynamic, r.Success?);
    }

    /** The part of create_subtree after the backend node exists: store it, link it, build its children. */
    method InstallNode(d: NodeDef, handle: Handle, parent: Uid, rootId: string, currentPath: seq<string>, dynamic: bool,
                       ghost parents: map<Handle, Handle>)
      returns (r: Result<Uid, BuildError>)
      requires DefinitionsOk() && Validated(d) && AllNonEmpty(currentPath)
      requires backend.Valid() && WellFormed(State()) && Mirrors(State(), parents, leaked)
      requires CanAdd(State(), d, AbsoluteNodePath(rootId, currentPath), handle, parent, dynamic)
      requires handle !in parents && (forall h :: h in parents ==> parents[h] != handle)
      requires forall h :: h in leaked ==> h < backend.nextHandle && h != handle
      requires backend.parents == parents[handle := if parent in nodes then nodes[parent].handle else 0]
      requires backend.nextHandle == handle + 1 && forall h :: h in parents ==> h < handle
      modifies this, backend
      ensures Valid() && screens == old(screens) && templates == old(templates)
      ensures BuildOutcome(old(State()), State(), d, AbsoluteNodePath(rootId, currentPath), parent)
      ensures backend.destroyCalls == old(backend.destroyCalls)
      ensures r.Success? ==>
        && r.value == old(nextUid)
        && Built(nodes, r.value, d, AbsoluteNodePath(rootId, currentPath), parent, dynamic)
      ensures Touches(Side(parents, handle, old(BackendSide().own)), BackendSide())
      ensures backend.refusals == old(backend.refusals) + if r.Failure? then Blame(r.error) else 0
      ensures r.Failure? && r.error.UidsExhausted? ==> nextUid == 0
      ensures BuildsOn(AddNode(old(State()), d, AbsoluteNodePath(rootId, currentPath), handle, parent, dynamic),
                       State(), d, AbsoluteNodePath(rootId, currentPath), old(nextUid), r.Success?)
      decreases d, 1
    {
      hide LinksOk, UidsOk, HandlesOk, PathsSound, NamesOk, RootsOk, Mirrors, Below, Clean, ExtendedBelow, NewPathsIn,
        Touches, BuildsOn;
      ghost var before, path := State(), AbsoluteNodePath(rootId, currentPath);
      PlacedNode(before, d, path, handle, parent, dynamic, parents, leaked);
      var uid := StoreNode(d, AbsoluteNodePath(rootId, currentPath), handle, parent, dynamic);
      ghost var stored, side := State(), BackendSide();
      NewHandleTouches(before, parents, leaked, handle, parent, side);
      var built := BuildChildren(d, handle, uid, rootId, currentPath, dynamic);
      StoredOutcome(before, stored, State(), d, path, handle, parent, dynamic);
      TouchesTrans(Side(parents, handle, old(BackendSide().own)), side, BackendSide());
      if built.Success? {
        StoredBuilt(stored, State(), uid, d, path, handle, parent, dynamic);
      }
      r := if built.Failure? then Failure(built.error) else Success(uid);
    }

    method BuildChildren(d: NodeDef, handle: Handle, uid: Uid, rootId: string, currentPath: seq<string>, dynamic: bool)
      returns (r: Result<(), BuildError>)
      requires Valid() && Validated(d) && AllNonEmpty(currentPath)
      requires uid != 0 && uid in nodes
      requires nodes[uid]
               == NodeRecord(d, AbsoluteNodePath(rootId, currentPath), handle, nodes[uid].parent, [], dynamic)
      modifies this, backend
      ensures Valid() && screens == old(screens) && templates == old(templates)
      ensures ExtendedBelow(old(State()), State(), uid)
      ensures backend.destroyCalls == old(backend.destroyCalls)
      ensures r.Success? ==>
        && |nodes[uid].children| == |d.children|
        && BuiltChildren(nodes, uid, d, AbsoluteNodePath(rootId, currentPath), |d.children|)
      ensures old(Clean(State())) && IdsSlashFree(d) ==> Clean(State())
      ensures NewPathsIn(old(State()), State(), d, AbsoluteNodePath(rootId, currentPath))
      ensures Touches(old(BackendSide()), BackendSide())
      ensures backend.refusals == old(backend.refusals) + if r.Failure? then Blame(r.error) else 0
      ensures r.Failure? && r.error.UidsExhausted? ==> nextUid == 0
      ensures BuildsOn(old(State()), State(), d, AbsoluteNodePath(rootId, currentPath), uid, r.Success?)
      decreases d, 0
    {
      hide LinksOk, UidsOk, HandlesOk, PathsSound, NamesOk, RootsOk, Mirrors, Below, Clean, BuildOutcome, Built,
        Touches, NewPathsIn, DefinitionsFit, IdsSlashFree, Builds, BuildsOn, ChildrenSoFar, BuiltChildren,
        ExtendedBelow, Validated, Grown;
      ghost var f0, path := State(), AbsoluteNodePath(rootId, currentPath);
      TouchesSelf(BackendSide(), BackendSide().own);
      NoChildren(f0, d, path, uid);
      for i := 0 to |d.children|
        invariant Valid() && screens == old(screens) && templates == old(templates)
        invariant backend.destroyCalls == old(backend.destroyCalls) && backend.refusals == old(backend.refusals)
        invariant ChildrenSoFar(f0, State(), d, path, uid, i)
        invariant Touches(old(BackendSide()), BackendSide())
      {
        var child := d.children[i];
        ghost var f, side := State(), BackendSide();
        ChildFits(f0, f, d, path, handle, uid, i);
        AbsoluteNodePathAppend(rootId, currentPath, child.id);
        var built := CreateSubtree(child, handle, uid, rootId, currentPath + [child.id], false);
        ChildEnds(f0, f, State(), d, path, handle, uid, i, built.Success?);
        TouchesTrans(old(BackendSide()), side, BackendSide());
        if built.Failure? {
          return Failure(built.error);
        }
      }
      ChildrenDone(f0, State(), d, path, uid);
      return Success(());
    }

    /** Appends `uid` and every node below it, each exactly when it is live. */
    method CollectSubtreeUids(uid: Uid, collected: seq<Uid>) returns (uids: seq<Uid>)
      requires Indexed(State())
      ensures collected <= uids
      ensures forall v :: v in uids[|collected|..] <==> v in nodes && Under(nodes, v, uid)
      decreases MAX_UID - uid
    {
      uids := collected;
      if uid !in nodes {
        assert forall v :: !Under(nodes, v, uid) by {
          forall v | Under(nodes, v, uid) ensures false {
            BelowIsAtLeast(ParentsOf(nodes), v, uid);
          }
        }
        return;
      }
      uids := uids + [uid];
      var children := nodes[uid].children;
      assert ChildrenOk(nodes, uid);
      for i := 0 to |children|
        invariant collected <= uids
        invariant forall v :: v in uids[|collected|..] <==>
                    v == uid || exists k :: 0 <= k < i && Under(nodes, v, children[k])
      {
        assert ParentOk(nodes, children[i]);
        ghost var prefix := uids;
        uids := CollectSubtreeUids(children[i], uids);
        assert uids[|collected|..] == prefix[|collected|..] + uids[|prefix|..];
      }
      forall v ensures v in uids[|collected|..] <==> v in nodes && Under(nodes, v, uid) {
        UnderChildren(State(), uid, v);
      }
    }

    method EraseRecord(uid: Uid)
      requires uid in nodes
      modifies this`nodes, this`handleToUid, this`pathToUid
      ensures State()
              == old(State()).(nodes := old(nodes) - {uid}, handleToUid := old(handleToUid) - {old(nodes)[uid].handle},
                                       pathToUid := old(pathToUid) - {old(nodes)[uid].path})
    {
      pathToUid := pathToUid - {nodes[uid].path};
      handleToUid := handleToUid - {nodes[uid].handle};
      nodes := nodes - {uid};
    }

    /** Takes every collected node out of the three indices. */
    method EraseRecords(uids: seq<Uid>, ghost f: TreeState, ghost root: Uid)
      requires Indexed(f) && root in f.nodes && State() == EraseNodes(f, root, {})
      requires forall v :: v in uids <==> v in f.nodes && Under(f.nodes, v, root)
      modifies this`nodes, this`handleToUid, this`pathToUid
      ensures State() == RemoveSubtree(f, root)
    {
      hide Indexed, Below, EraseNodes;
      ghost var done: set<Uid> := {};
      for i := 0 to |uids|
        invariant done == set k | 0 <= k < i :: uids[k]
        invariant State() == EraseNodes(f, root, done)
      {
        var current := uids[i];
        assert current in uids;
        EraseKeys(f, root, done);
        if current in nodes {
          EraseStep(f, root, done, current);
          EraseRecord(current);
        } else {
          assert done + {current} == done;
        }
        done := done + {current};
      }
      assert done == UnderSet(f.nodes, root);
      EraseAllIsRemove(f, root);
    }

    method DetachFromParent(uid: Uid)
      requires uid in nodes
      modifies this`nodes
      ensures State() == EraseNodes(old(State()), uid, {})
    {
      EraseNone(State(), uid);
      var parent := nodes[uid].parent;
      if parent in nodes {
        nodes := nodes[parent := nodes[parent].(children := Without(nodes[parent].children, uid))];
      }
    }

    method DestroySubtree(uid: Uid)
      requires Consistent()
      modifies this, backend
      ensures Consistent() && screens == old(screens) && templates == old(templates) && leaked == old(leaked)
      ensures backend.refusals == old(backend.refusals) && nextUid == old(nextUid)
      ensures uid !in old(nodes) ==> State() == old(State()) && unchanged(backend)
      ensures uid in old(nodes) ==>
        && State() == RemoveSubtree(old(State()), uid)
        && backend.destroyCalls == old(backend.destroyCalls) + [old(nodes)[uid].handle]
        && backend.parents == Prune(old(backend.parents), old(nodes)[uid].handle)
      ensures Touches(old(BackendSide()), BackendSide())
    {
      hide LinksOk, UidsOk, HandlesOk, PathsSound, NamesOk, Mirrors, Below, RemoveSubtree, Touches;
      TouchesSelf(BackendSide(), BackendSide().own);
      if uid !in nodes {
        return;
      }
      ghost var f := State();
      var subtreeUids := CollectSubtreeUids(uid, []);
      assert subtreeUids[0..] == subtreeUids;
      RemoveSubtreeIndexed(f, uid);
      MirrorRemove(f, backend.parents, leaked, uid);
      TouchesPrune(f, backend.parents, leaked, uid, backend.nextHandle);
      backend.DestroyNode(nodes[uid].handle);
      DetachFromParent(uid);
      EraseRecords(subtreeUids, f, uid);
    }

    method CollectRoots() returns (roots: seq<Uid>)
      ensures forall u :: u in roots <==> u in nodes && nodes[u].parent == 0
      ensures forall i, j :: 0 <= i < j < |roots| ==> roots[i] != roots[j]
    {
      roots := [];
      var pending := nodes.Keys;
      while pending != {}
        invariant pending <= nodes.Keys
        invariant forall u :: u in roots <==> u in nodes && nodes[u].parent == 0 && u !in pending
        invariant forall i, j :: 0 <= i < j < |roots| ==> roots[i] != roots[j]
        decreases pending
      {
        var u :| u in pending;
        pending := pending - {u};
        if nodes[u].parent == 0 {
          roots := roots + [u];
        }
      }
    }

    /** One backend call per root empties the node map, the handle index and the path index. */
    method DestroyRoots(roots: seq<Uid>)
      requires Consistent()
      requires forall u :: u in roots <==> u in nodes && nodes[u].parent == 0
      requires forall i, j :: 0 <= i < j < |roots| ==> roots[i] != roots[j]
      modifies this, backend
      ensures Consistent() && screens == old(screens) && templates == old(templates)
      ensures State() == TreeState(map[], map[], map[], old(screenRoots), old(nextUid))
      ensures backend.destroyCalls == old(backend.destroyCalls) + HandlesOf(old(nodes), roots)
      ensures forall u :: u in old(nodes) ==> old(nodes)[u].handle !in backend.parents
      ensures leaked == old(leaked) && backend.refusals == old(backend.refusals)
      ensures Touches(old(BackendSide()), BackendSide())
    {
      hide LinksOk, UidsOk, HandlesOk, PathsSound, NamesOk, Mirrors, Below, RemoveSubtree, Drained, Touches;
      ghost var f0 := State();
      TouchesSelf(BackendSide(), BackendSide().own);
      DrainStart(f0, backend.parents, roots, leaked);
      for i := 0 to |roots|
        invariant Consistent() && screens == old(screens) && templates == old(templates) && leaked == old(leaked)
        invariant backend.refusals == old(backend.refusals)
        invariant Drained(f0, old(backend.parents), roots, leaked, i, State(), backend.parents)
        invariant backend.destroyCalls == old(backend.destroyCalls) + HandlesOf(f0.nodes, roots[..i])
        invariant Touches(old(BackendSide()), BackendSide())
      {
        ghost var side := BackendSide();
        DrainStep(f0, old(backend.parents), roots, leaked, i, State(), backend.parents);
        DestroySubtree(roots[i]);
        TouchesTrans(old(BackendSide()), side, BackendSide());
        assert HandlesOf(f0.nodes, roots[..i + 1]) == HandlesOf(f0.nodes, roots[..i]) + [f0.nodes[roots[i]].handle];
      }
      assert roots[..|roots|] == roots;
      DrainEnd(f0, old(backend.parents), roots, leaked, State(), backend.parents);
      DrainedHandles(f0, old(backend.parents), roots, leaked, State(), backend.parents);
    }

    method UnloadPartialTree() returns (ghost roots: seq<Uid>)
      requires Consistent() && DefinitionsOk()
      modifies this, backend
      ensures Valid() && screens == old(screens) && templates == old(templates)
      ensures State() == TreeState(map[], map[], map[], map[], old(nextUid))
      ensures forall u :: u in roots <==> u in old(nodes) && old(nodes)[u].parent == 0
      ensures forall i, j :: 0 <= i < j < |roots| ==> roots[i] != roots[j]
      ensures backend.destroyCalls == old(backend.destroyCalls) + HandlesOf(old(nodes), roots)
      ensures forall u :: u in old(nodes) ==> old(nodes)[u].handle !in backend.parents
      ensures Touches(old(BackendSide()), BackendSide()) && backend.refusals == old(backend.refusals)
    {
      var list := CollectRoots();
      roots := list;
      DestroyRoots(list);
      handleToUid, pathToUid, nodes, screenRoots := map[], map[], map[], map[];
      assert BackendSide().own == leaked;
    }

    method FindRootNode(u: Uid) returns (root: Uid)
      requires Indexed(State()) && u in nodes
      ensures root == RootOf(nodes, u) && root in nodes
    {
      root := u;
      while nodes[root].parent != 0
        invariant root in nodes && RootOf(nodes, u) == RootOf(nodes, root)
        decreases root
      {
        assert ParentOk(nodes, root);
        root := nodes[root].parent;
      }
    }

    /** Collects ids leaf first, as the source does, and turns them round at the end. */
    method BuildRelativeNodePath(u: Uid) returns (path: seq<string>)
      requires Indexed(State()) && u in nodes
      ensures path == RelativePath(nodes, u)
    {
      hide RelativePath, Reversed, UidsOk, HandlesOk, NamesOk, RootsOk;
      var reversed: seq<string>, current := [], u;
      PathStart(nodes, u);
      while nodes[current].parent != 0
        invariant current in nodes && RelativePath(nodes, u) == RelativePath(nodes, current) + Reversed(reversed)
        decreases current
      {
        assert ParentOk(nodes, current);
        PathStep(nodes, current, reversed);
        reversed := reversed + [nodes[current].NodeId()];
        current := nodes[current].parent;
      }
      PathEnd(nodes, current);
      path := Reversed(reversed);
    }

    /** When create_view gets as far as building. */
    predicate ViewAllowed(templateId: string, parentPath: string, instanceId: string)
      reads this
    {
      var parentQuery, name := NormalizePath(parentPath), TrimSlashes(instanceId);
      && templateId in templates
      && parentQuery != "/" && Segment(name)
      && parentQuery in pathToUid && parentQuery + "/" + name !in pathToUid
    }

    method CreateView(templateId: string, parentPath: string, instanceId: string) returns (r: Result<string, ViewError>)
      requires Valid()
      modifies this, backend
      ensures Valid() && screens == old(screens) && templates == old(templates)
      ensures backend.destroyCalls == old(backend.destroyCalls)
      ensures !old(ViewAllowed(templateId, parentPath, instanceId)) ==>
        r.Failure? && !r.error.BuildFailed? && State() == old(State()) && unchanged(backend)
      ensures old(ViewAllowed(templateId, parentPath, instanceId)) ==>
        var path := NormalizePath(parentPath) + "/" + TrimSlashes(instanceId);
        var parent := old(pathToUid)[NormalizePath(parentPath)];
        && (r.Success? || r.error.BuildFailed?)
        && BuildOutcome(old(State()), State(), templates[templateId], path, parent)
        && (r.Success? ==>
              && r.value == path && path in pathToUid && pathToUid[path] == old(nextUid)
              && Built(nodes, old(nextUid), templates[templateId], path, parent, true))
        && Builds(old(State()), State(), templates[templateId], path, parent, true, r.Success?)
      ensures old(Settled(State())) && (templateId in templates ==> IdsSlashFree(templates[templateId])) ==>
        Settled(State())
      ensures Touches(old(BackendSide()), BackendSide())
      ensures backend.refusals == old(backend.refusals) + if BuildFails(r) then Blame(r.error.cause) else 0
      ensures BuildFails(r) && r.error.cause.UidsExhausted? ==> nextUid == 0
      ensures old(nextUid) == 0 ==> nextUid == 0
    {
      hide LinksOk, UidsOk, HandlesOk, NamesOk, RootsOk, Mirrors, Below, Clean, Grown, Settled, BuildOutcome, Touches,
        NormalizePath, TrimSlashes, AbsoluteNodePath, IdsSlashFree, Built, Builds;
      TouchesSelf(BackendSide(), BackendSide().own);
      if templateId !in templates {
        return Failure(TemplateNotFound);
      }
      var parentQuery := NormalizePath(parentPath);
      if parentQuery == "/" {
        return Failure(EmptyParentPath);
      }
      var name := TrimSlashes(instanceId);
      if name == "" || '/' in name {
        return Failure(BadInstanceId);
      }
      if parentQuery !in pathToUid {
        return Failure(ParentNotFound);
      }
      var createdPath := parentQuery + "/" + name;
      if createdPath in pathToUid {
        return Failure(AlreadyExists);
      }
      var parent, rootId, relative := LocateInstance(templates[templateId], parentQuery, name);
      var built := CreateSubtree(templates[templateId], nodes[parent].handle, parent, rootId, relative, true);
      ViewSettles(old(State()), State(), templates[templateId], createdPath, parent);
      OutcomeUids(old(State()), State(), templates[templateId], createdPath, parent);
      r := if built.Failure? then Failure(BuildFailed(built.error)) else Success(createdPath);
    }

    /** Where a new instance goes: the path rebuilt from the ancestors' ids is the queried path plus the new id. */
    method LocateInstance(ghost d: NodeDef, parentQuery: string, name: string)
      returns (parent: Uid, rootId: string, relative: seq<string>)
      requires Indexed(State()) && parentQuery in pathToUid && Segment(name)
      ensures parent == pathToUid[parentQuery] && parent in nodes && AllNonEmpty(relative)
      ensures AbsoluteNodePath(rootId, relative) == parentQuery + "/" + name
      ensures CanPlace(d, parentQuery + "/" + name, nodes[parent].handle, parent, true)
    {
      parent := pathToUid[parentQuery];
      var root := FindRootNode(parent);
      var above := BuildRelativeNodePath(parent);
      rootId, relative := nodes[root].NodeId(), above + [name];
      assert 0 !in nodes;
      RelativePathRenders(nodes, parent);
      AbsoluteNodePathAppend(rootId, above, name);
      AfterLastSlashAppend(parentQuery, name);
    }

    /** Screen nodes are refused, so no screen root can be destroyed this way. */
    method DestroyView(path: string) returns (destroyed: bool)
      requires Valid()
      modifies this, backend
      ensures Valid() && screens == old(screens) && templates == old(templates)
      ensures destroyed <==> NormalizePath(path) in old(pathToUid) &&
                             !old(nodes)[old(pathToUid)[NormalizePath(path)]].definition.screen
      ensures !destroyed ==> State() == old(State()) && unchanged(backend)
      ensures destroyed ==>
        && State() == RemoveSubtree(old(State()), old(pathToUid)[NormalizePath(path)])
        && NormalizePath(path) !in pathToUid
        && (old(Clean(State())) ==> Clean(State()))
      ensures old(Settled(State())) ==> Settled(State())
      ensures Touches(old(BackendSide()), BackendSide())
      ensures backend.refusals == old(backend.refusals) && nextUid == old(nextUid)
    {
      hide LinksOk, UidsOk, HandlesOk, NamesOk, Mirrors, Below, Clean, RootsListed, RemoveSubtree, Touches;
      TouchesSelf(BackendSide(), BackendSide().own);
      var query := NormalizePath(path);
      if query !in pathToUid {
        return false;
      }
      var uid := pathToUid[query];
      if nodes[uid].definition.screen {
        return false;
      }
      ghost var f := State();
      RemoveSubtreeRoots(f, uid);
      RemovedSubtreePath(f, uid);
      if RootsListed(f) {
        RemovalKeepsListed(f, uid);
      }
      DestroySubtree(uid);
      destroyed := true;
    }

    /** Builds a dynamic screen and records its root. */
    method BuildScreenRoot(screenId: string) returns (r: Result<Uid, ScreenError>)
      requires Valid() && screenId in screens && screenId !in screenRoots
      modifies this, backend
      ensures Valid() && screens == old(screens) && templates == old(templates)
      ensures backend.destroyCalls == old(backend.destroyCalls)
      ensures BuildOutcome(old(State()), State().(screenRoots := old(screenRoots)), screens[screenId], "/" + screenId,
          0)
      ensures Builds(old(State()), State().(screenRoots := old(screenRoots)), screens[screenId], "/" + screenId, 0,
                     false, r.Success?)
      ensures r.Failure? ==> screenRoots == old(screenRoots)
      ensures r.Success? ==>
        && screenRoots == old(screenRoots)[screenId := r.value] && r.value == old(nextUid)
        && Built(nodes, r.value, screens[screenId], "/" + screenId, 0, false)
      ensures r.Failure? ==> r.error.ScreenBuildFailed?
      ensures Touches(old(BackendSide()), BackendSide())
      ensures backend.refusals == old(backend.refusals) + if ScreenBuildFails(r) then Blame(r.error.cause) else 0
      ensures ScreenBuildFails(r) && r.error.cause.UidsExhausted? ==> nextUid == 0
      ensures old(nextUid) == 0 ==> nextUid == 0
    {
      hide LinksOk, HandlesOk, PathsSound, NamesOk, Mirrors, Below, IdsSlashFree, Clean, BuildOutcome, Touches, Builds;
      AbsoluteNodePathOfRoot(screenId);
      assert 0 !in nodes && BasePath(nodes, 0) + "/" + screenId == "/" + screenId;
      var built := CreateSubtree(screens[screenId], 0, 0, screenId, [], false);
      OutcomeKeepsRoots(old(State()), State(), screens[screenId], "/" + screenId, 0);
      OutcomeUids(old(State()), State(), screens[screenId], "/" + screenId, 0);
      if built.Failure? {
        return Failure(ScreenBuildFailed(built.error));
      }
      OnlyRootsChanged(State(), screenRoots[screenId := built.value], backend.parents, leaked);
      screenRoots := screenRoots[screenId := built.value];
      r := Success(built.value);
    }

    /** The build step of mount_screen and push_transient_screen: dynamic screens are created on first use. */
    method EnsureScreenRoot(screenId: string) returns (r: Result<Uid, ScreenError>)
      requires Valid()
      modifies this, backend
      ensures Valid() && screens == old(screens) && templates == old(templates)
      ensures backend.destroyCalls == old(backend.destroyCalls)
      ensures r.Success? ==> screenId in screenRoots && r.value == screenRoots[screenId]
      ensures screenId in screens && (screenId in old(screenRoots) || screens[screenId].dynamicMount) ==>
                r.Success? || ScreenBuildFails(r)
      ensures screenId in old(screenRoots) || screenId !in screens || !screens[screenId].dynamicMount ==>
                State() == old(State())
      ensures screenId in screens && screenId !in old(screenRoots) && screens[screenId].dynamicMount ==>
        && BuildOutcome(old(State()), State().(screenRoots := old(screenRoots)), screens[screenId], "/" + screenId, 0)
        && Builds(old(State()), State().(screenRoots := old(screenRoots)), screens[screenId], "/" + screenId, 0, false,
                  r.Success?)
        && (ScreenBuildFails(r) && screens[screenId].children == [] ==> State() == old(State()))
        && (r.Success? ==> Built(nodes, r.value, screens[screenId], "/" + screenId, 0, false))
      ensures old(Settled(State())) && (screenId in screens ==> IdsSlashFree(screens[screenId])) ==>
        (Settled(State()) <==> !ScreenBuildFails(r) || State() == old(State()))
      ensures old(nextUid) == 0 ==> nextUid == 0
      ensures Touches(old(BackendSide()), BackendSide())
      ensures backend.refusals == old(backend.refusals) + if ScreenBuildFails(r) then Blame(r.error.cause) else 0
      ensures ScreenBuildFails(r) && r.error.cause.UidsExhausted? ==> nextUid == 0
    {
      hide LinksOk, UidsOk, HandlesOk, PathsSound, NamesOk, RootsOk, Mirrors, Below, BuildOutcome, Built, Builds, Clean,
        RootsListed, Touches;
      TouchesSelf(BackendSide(), BackendSide().own);
      if screenId !in screens {
        return Failure(ScreenNotFound);
      }
      if screenId in screenRoots {
        return Success(screenRoots[screenId]);
      }
      if !screens[screenId].dynamicMount {
        return Failure(RootNotFound);
      }
      ghost var f := State();
      r := BuildScreenRoot(screenId);
      ghost var g := State().(screenRoots := f.screenRoots);
      if r.Failure? && screens[screenId].children == [] {
        ChildlessWhole(f, g, screens[screenId], "/" + screenId, 0, false);
      }
      if Settled(f) && IdsSlashFree(screens[screenId]) {
        OutcomeKeepsRoots(f, g, screens[screenId], "/" + screenId, 0);
        if r.Success? {
          BuiltScreenSettles(f, g, State(), screens[screenId], screenId);
        } else {
          FailedScreenBuild(f, g, screens[screenId], screenId);
        }
      }
    }

    method DropScreenRoot(screenId: string)
      requires Valid() && screenId in screenRoots
      modifies this, backend
      ensures Valid() && screens == old(screens) && templates == old(templates)
      ensures State() == RemoveSubtree(old(State()), old(screenRoots)[screenId])
                         .(screenRoots := old(screenRoots) - {screenId})
      ensures old(Clean(State())) ==> Clean(State())
      ensures old(Settled(State())) ==> Settled(State())
      ensures Touches(old(BackendSide()), BackendSide())
      ensures backend.refusals == old(backend.refusals) && nextUid == old(nextUid)
    {
      hide LinksOk, UidsOk, HandlesOk, PathsSound, NamesOk, Mirrors, Below, Clean, RemoveSubtree, RootsListed, Touches;
      var rest := screenRoots - {screenId};
      RemovedScreenRoot(State(), screenId);
      if Settled(State()) {
        DroppedRootKeepsListed(State(), screenId);
      }
      DestroySubtree(screenRoots[screenId]);
      ghost var side := BackendSide();
      OnlyRootsChanged(State(), rest, backend.parents, leaked);
      screenRoots := rest;
      assert BackendSide() == side;
    }

    /** Unmounting a dynamic screen destroys its tree and forgets its root; an eager screen keeps both. */
    method UnmountMountedScreen(path: string) returns (destroyed: bool)
      requires Valid()
      modifies this, backend
      ensures Valid() && screens == old(screens) && templates == old(templates)
      ensures destroyed <==>
        var s := TrimSlashes(path); s in old(screenRoots) && s in screens && screens[s].dynamicMount
      ensures !destroyed ==> State() == old(State()) && unchanged(backend)
      ensures destroyed ==>
        var s := TrimSlashes(path);
        && State() == RemoveSubtree(old(State()), old(screenRoots)[s]).(screenRoots := old(screenRoots) - {s})
        && (old(Clean(State())) ==> Clean(State()))
      ensures old(Settled(State())) ==> Settled(State())
      ensures Touches(old(BackendSide()), BackendSide())
      ensures backend.refusals == old(backend.refusals) && nextUid == old(nextUid)
    {
      hide LinksOk, UidsOk, HandlesOk, PathsSound, NamesOk, Mirrors, Below, Clean, RemoveSubtree, RootsListed, Touches;
      TouchesSelf(BackendSide(), BackendSide().own);
      var screenId := TrimSlashes(path);
      if screenId !in screenRoots {
        return false;
      }
      destroyed := screenId in screens && screens[screenId].dynamicMount;
      if destroyed {
        DropScreenRoot(screenId);
      }
    }

    /** The load-time image pass; one refused image ends it. */
    method PreloadTreeImages() returns (ok: bool)
      modifies backend`refusals
      ensures backend.refusals == old(backend.refusals) + if ok then 0 else 1
    {
      ok := *;
      if !ok {
        backend.refusals := backend.refusals + 1;
      }
    }

    /**
     * The rebuild of update: everything old is destroyed, the definitions are replaced, resource references are checked
     * (`valid` says with which result), images are preloaded, every eager screen is built in document order, then every
     * dynamic screen that was there before. The first failure ends it.
     */
    method Rebuild(newScreens: map<string, NodeDef>, newTemplates: map<string, NodeDef>, order: seq<string>,
                   instantiated: seq<string>, valid: bool) returns (r: Result<(), ScreenError>)
      requires Valid() && DefinitionsFit(newScreens, newTemplates)
      requires forall i :: 0 <= i < |order| ==> order[i] in newScreens
      requires forall i, j :: 0 <= i < j < |order| ==> order[i] != order[j]
      modifies this, backend
      ensures Valid() && screens == newScreens && templates == newTemplates
      ensures Partly(State(), old(nextUid), newScreens)
      ensures r.Success? ==>
        Rebuilt(State(), old(nextUid), newScreens) && screenRoots.Keys == Wanted(newScreens, order, instantiated)
      ensures !ScreenBuildFails(r) && AllSlashFree(newScreens) ==> Settled(State())
      ensures r.Failure? && !ScreenBuildFails(r) ==> State() == TreeState(map[], map[], map[], map[], old(nextUid))
      ensures !valid <==> r.Failure? && r.error.ResourcesInvalid?
      ensures r.Failure? ==> r.error.ResourcesInvalid? || r.error.ImagesRefused? || r.error.ScreenBuildFailed?
      ensures Touches(old(BackendSide()), BackendSide())
      ensures backend.refusals == old(backend.refusals) + RebuildBlame(r)
      ensures ScreenBuildFails(r) && r.error.cause.UidsExhausted? ==> nextUid == 0
      ensures old(nextUid) == 0 ==> nextUid == 0
    {
      hide LinksOk, UidsOk, HandlesOk, PathsSound, NamesOk, RootsOk, Mirrors, Below, Clean, Partly, RootsListed, Built,
        DefinitionsFit, Touches;
      ghost var first := nextUid;
      ghost var roots := UnloadPartialTree();
      screens, templates := newScreens, newTemplates;
      EmptyForest(State(), screens);
      RebuiltSettles(State(), first, screens);
      if !valid {
        return Failure(ResourcesInvalid);
      }
      var preloaded := PreloadTreeImages();
      if !preloaded {
        return Failure(ImagesRefused);
      }
      r := RebuildScreens(order, instantiated, first, old(BackendSide()));
      PartlyUids(State(), first, screens);
      if r.Success? {
        RebuiltSettles(State(), first, screens);
      }
    }

    method RebuildScreens(order: seq<string>, instantiated: seq<string>, ghost first: nat, ghost side: Side)
      returns (r: Result<(), ScreenError>)
      requires Valid() && Rebuilt(State(), first, screens) && Touches(side, BackendSide()) && screenRoots == map[]
      requires forall i :: 0 <= i < |order| ==> order[i] in screens
      requires forall i, j :: 0 <= i < j < |order| ==> order[i] != order[j]
      modifies this, backend
      ensures Valid() && screens == old(screens) && templates == old(templates)
      ensures Partly(State(), first, screens) && Touches(side, BackendSide())
      ensures r.Success? ==>
        Rebuilt(State(), first, screens) && screenRoots.Keys == Wanted(screens, order, instantiated)
      ensures r.Failure? ==> r.error.ScreenBuildFailed?
      ensures backend.refusals == old(backend.refusals) + if ScreenBuildFails(r) then Blame(r.error.cause) else 0
      ensures ScreenBuildFails(r) && r.error.cause.UidsExhausted? ==> nextUid == 0
    {
      hide LinksOk, UidsOk, HandlesOk, PathsSound, NamesOk, RootsOk, Mirrors, Below, Clean, Partly, RootsListed, Built,
        DefinitionsFit, Touches, Rebuilt, Wanted;
      r := RebuildEager(order, first, side);
      if r.Success? {
        r := RebuildInstantiated(order, instantiated, first, side);
      }
    }

    /** The first part of the rebuild: the screens that are not mounted dynamically. */
    method RebuildEager(order: seq<string>, ghost first: nat, ghost side: Side) returns (r: Result<(), ScreenError>)
      requires Valid() && Rebuilt(State(), first, screens) && Touches(side, BackendSide()) && screenRoots == map[]
      requires forall i :: 0 <= i < |order| ==> order[i] in screens
      requires forall i, j :: 0 <= i < j < |order| ==> order[i] != order[j]
      modifies this, backend
      ensures Valid() && screens == old(screens) && templates == old(templates)
      ensures Partly(State(), first, screens) && Touches(side, BackendSide())
      ensures r.Success? ==> Rebuilt(State(), first, screens) && screenRoots.Keys == Wanted(screens, order, [])
      ensures r.Failure? ==> r.error.ScreenBuildFailed?
      ensures backend.refusals == old(backend.refusals) + if ScreenBuildFails(r) then Blame(r.error.cause) else 0
      ensures ScreenBuildFails(r) && r.error.cause.UidsExhausted? ==> nextUid == 0
    {
      hide LinksOk, UidsOk, HandlesOk, PathsSound, NamesOk, RootsOk, Mirrors, Below, Clean, Partly, RootsListed, Built,
        DefinitionsFit, Touches;
      for i := 0 to |order|
        invariant Valid() && screens == old(screens) && templates == old(templates)
        invariant Rebuilt(State(), first, screens) && Touches(side, BackendSide())
        invariant backend.refusals == old(backend.refusals)
        invariant screenRoots.Keys == set k | 0 <= k < i && !screens[order[k]].dynamicMount :: order[k]
      {
        if !screens[order[i]].dynamicMount {
          r := RebuildScreen(order[i], first, side);
          if r.Failure? {
            return;
          }
        }
      }
      r := Success(());
    }

    /** The second part of the rebuild: dynamic screens that were there before and still exist. */
    method RebuildInstantiated(ghost order: seq<string>, instantiated: seq<string>, ghost first: nat, ghost side: Side)
      returns (r: Result<(), ScreenError>)
      requires Valid() && Rebuilt(State(), first, screens) && Touches(side, BackendSide())
      requires forall i :: 0 <= i < |order| ==> order[i] in screens
      requires screenRoots.Keys == Wanted(screens, order, [])
      modifies this, backend
      ensures Valid() && screens == old(screens) && templates == old(templates)
      ensures Partly(State(), first, screens) && Touches(side, BackendSide())
      ensures r.Success? ==>
        Rebuilt(State(), first, screens) && screenRoots.Keys == Wanted(screens, order, instantiated)
      ensures r.Failure? ==> r.error.ScreenBuildFailed?
      ensures backend.refusals == old(backend.refusals) + if ScreenBuildFails(r) then Blame(r.error.cause) else 0
      ensures ScreenBuildFails(r) && r.error.cause.UidsExhausted? ==> nextUid == 0
    {
      hide LinksOk, UidsOk, HandlesOk, PathsSound, NamesOk, RootsOk, Mirrors, Below, Clean, Partly, RootsListed, Built,
        DefinitionsFit, Touches;
      assert instantiated[..0] == [];
      for i := 0 to |instantiated|
        invariant Valid() && screens == old(screens) && templates == old(templates)
        invariant Rebuilt(State(), first, screens) && Touches(side, BackendSide())
        invariant backend.refusals == old(backend.refusals)
        invariant screenRoots.Keys == Wanted(screens, order, instantiated[..i])
      {
        var s := instantiated[i];
        WantedStep(screens, order, instantiated, i);
        if s !in screenRoots && s in screens && screens[s].dynamicMount {
          r := RebuildScreen(s, first, side);
          if r.Failure? {
            return;
          }
        }
      }
      assert instantiated[..|instantiated|] == instantiated;
      r := Success(());
    }

    method RebuildScreen(screenId: string, ghost first: nat, ghost side: Side) returns (r: Result<(), ScreenError>)
      requires Valid() && screenId in screens && screenId !in screenRoots && Rebuilt(State(), first, screens)
      requires Touches(side, BackendSide())
      modifies this, backend
      ensures Valid() && screens == old(screens) && templates == old(templates)
      ensures Partly(State(), first, screens)
      ensures r.Success? ==> Rebuilt(State(), first, screens) && screenRoots.Keys == old(screenRoots).Keys + {screenId}
      ensures r.Failure? ==> r.error.ScreenBuildFailed?
      ensures Touches(side, BackendSide())
      ensures backend.refusals == old(backend.refusals) + if ScreenBuildFails(r) then Blame(r.error.cause) else 0
      ensures ScreenBuildFails(r) && r.error.cause.UidsExhausted? ==> nextUid == 0
    {
      hide LinksOk, UidsOk, HandlesOk, PathsSound, NamesOk, Mirrors, Below, Clean, Partly, RootsListed, Built,
        BuildOutcome, Builds, Touches;
      ghost var f := State();
      var built := BuildScreenRoot(screenId);
      TouchesTrans(side, old(BackendSide()), BackendSide());
      ghost var h := State();
      ghost var g := h.(screenRoots := f.screenRoots);
      PartlyStep(f, g, first, screens, screenId);
      PartlyRoots(g, h, first, screens);
      if built.Failure? {
        return Failure(built.error);
      }
      OutcomeKeepsRoots(f, g, screens[screenId], "/" + screenId, 0);
      RebuiltStep(f, g, h, first, screens, screenId);
      r := Success(());
    }
  }

  /**
   * Two documents on one backend: whatever one of them, `a`, did since `before` within its contract, the other one is
   * as valid as it was and the two still share no handle.
   */
  lemma OtherDocumentKept(a: LiveDocument, b: LiveDocument, before: Side)
    requires a.backend == b.backend && a.backend.Valid() && Touches(before, a.BackendSide())
    requires Indexed(b.State()) && RootsOk(b.State()) && b.DefinitionsOk()
    requires Mirrors(b.State(), before.parents, b.leaked) && forall h :: h in b.leaked ==> h < before.next
    requires 0 !in before.own && before.own !! b.BackendSide().own
    ensures b.Valid() && a.BackendSide().own !! b.BackendSide().own
  {
    hide LinksOk, UidsOk, PathsSound, NamesOk, DefinitionsFit, Below;
    OtherMirrorKept(b.State(), b.leaked, before, a.BackendSide());
  }

  lemma OwnIsNotZero(f: TreeState, parents: map<Handle, Handle>, leaked: set<Handle>)
    requires Indexed(f) && Mirrors(f, parents, leaked)
    ensures 0 !in f.handleToUid.Keys + leaked
  {
  }

  lemma WantedStep(screens: map<string, NodeDef>, order: seq<string>, instantiated: seq<string>, i: nat)
    requires i < |instantiated| && forall i :: 0 <= i < |order| ==> order[i] in screens
    ensures var s := instantiated[i];
            Wanted(screens, order, instantiated[..i + 1])
            == Wanted(screens, order, instantiated[..i]) + if s in screens && screens[s].dynamicMount then {s} else {}
  {
    var a, b := instantiated[..i], instantiated[..i + 1];
    assert b == a + [instantiated[i]];
    assert b[i] == instantiated[i] && forall k :: 0 <= k < i ==> b[k] == a[k];
  }

  lemma RebuiltSettles(f: TreeState, first: nat, screens: map<string, NodeDef>)
    requires Rebuilt(f, first, screens)
    ensures AllSlashFree(screens) ==> Settled(f)
  {
  }

  /** Once the uids have run out, no build brings them back. */
  lemma OutcomeUids(f: TreeState, g: TreeState, d: NodeDef, path: string, parent: Uid)
    requires BuildOutcome(f, g, d, path, parent)
    ensures f.nextUid == 0 ==> g.nextUid == 0
  {
  }

  /** Reloading a document that ran out of uids leaves it without a node, whatever its screens are, and without uids. */
  lemma ReloadWithoutUids(f: TreeState, screens: map<string, NodeDef>)
    requires Rebuilt(f, 0, screens)
    ensures f.nodes == map[] && f.screenRoots == map[] && f.nextUid == 0
  {
    hide Clean, RootsListed;
    assert forall s :: s in f.screenRoots ==> f.screenRoots[s] in f.nodes;
  }

  lemma PartlyUids(f: TreeState, first: nat, screens: map<string, NodeDef>)
    requires Partly(f, first, screens)
    ensures first == 0 ==> f.nextUid == 0
  {
  }

  lemma PartlyRoots(g: TreeState, h: TreeState, first: nat, screens: map<string, NodeDef>)
    requires g == h.(screenRoots := g.screenRoots) && Partly(g, first, screens)
    ensures Partly(h, first, screens)
  {
    SameClean(g, h);
    hide Clean;
  }

  function Reversed(s: seq<string>): seq<string> {
    if s == [] then [] else [s[|s| - 1]] + Reversed(s[..|s| - 1])
  }

  /** Destroying a node frees its own path and keeps a clean index clean. */
  lemma RemovedSubtreePath(f: TreeState, u: Uid)
    requires Indexed(f) && u in f.nodes
    ensures f.nodes[u].path !in RemoveSubtree(f, u).pathToUid
    ensures Clean(f) ==> Clean(RemoveSubtree(f, u))
  {
    assert Under(f.nodes, u, u);
    var g := RemoveSubtree(f, u);
    if Clean(f) {
      RemoveSubtreePaths(f, u);
      assert forall v :: v in g.nodes ==> g.nodes[v].NodeId() == f.nodes[v].NodeId();
    }
  }

  /** Two screens never share a root, so dropping one root entry restores the screen-root invariant. */
  lemma RemovedScreenRoot(f: TreeState, s: string)
    requires WellFormed(f) && s in f.screenRoots
    ensures var u := f.screenRoots[s];
            && RootsOk(RemoveSubtree(f, u).(screenRoots := f.screenRoots - {s}))
            && (Clean(f) ==> Clean(RemoveSubtree(f, u).(screenRoots := f.screenRoots - {s})))
  {
    var u := f.screenRoots[s];
    var without := f.(screenRoots := f.screenRoots - {s});
    assert RemoveSubtree(without, u) == RemoveSubtree(f, u).(screenRoots := f.screenRoots - {s});
    RemoveSubtreeRoots(without, u);
    RemovedSubtreePath(without, u);
  }

  // ---- The children one after the other ----

  /** The first `i` children of the node under `uid`, freshly stored in `f0`, are built. */
  ghost predicate ChildrenSoFar(f0: TreeState, g: TreeState, d: NodeDef, path: string, uid: Uid, i: nat) {
    && i <= |d.children| && ExtendedBelow(f0, g, uid) && |g.nodes[uid].children| == i
    && BuiltChildren(g.nodes, uid, d, path, i) && BuildsUpTo(f0, g, d, path, uid, i)
    && (Clean(f0) && IdsSlashFree(d) ==> Clean(g)) && NewPathsIn(f0, g, d, path)
  }

  lemma NoChildren(f: TreeState, d: NodeDef, path: string, uid: Uid)
    requires uid in f.nodes && f.nodes[uid].children == []
    ensures ChildrenSoFar(f, f, d, path, uid, 0)
  {
    NoNewPaths(f, d, path);
  }

  lemma ChildFits(f0: TreeState, f: TreeState, d: NodeDef, path: string, handle: Handle, uid: Uid, i: nat)
    requires Indexed(f) && Validated(d) && i < |d.children| && ChildrenSoFar(f0, f, d, path, uid, i)
    requires uid in f0.nodes && f0.nodes[uid].handle == handle && f0.nodes[uid].path == path
    ensures uid in f.nodes && f.nodes[uid].handle == handle && f.nodes[uid].path == path
    ensures Validated(d.children[i]) && d.children[i].id != ""
  {
    hide LinksOk, UidsOk, HandlesOk, PathsSound, NamesOk, Below, Clean, NewPathsIn, BuiltChildren, BuildsUpTo;
    assert IdsNonEmpty(d.children[i]);
  }

  lemma ChildEnds(f0: TreeState, f: TreeState, g: TreeState, d: NodeDef, path: string, handle: Handle, uid: Uid, i: nat,
                  done: bool)
    requires Indexed(f0) && Indexed(f) && Indexed(g) && Validated(d) && i < |d.children|
    requires uid in f0.nodes && f0.nodes[uid].path == path && ChildrenSoFar(f0, f, d, path, uid, i)
    requires BuildOutcome(f, g, d.children[i], path + "/" + d.children[i].id, uid)
    requires Builds(f, g, d.children[i], path + "/" + d.children[i].id, uid, false, done)
    requires done ==> Built(g.nodes, f.nextUid, d.children[i], path + "/" + d.children[i].id, uid, false)
    ensures ExtendedBelow(f0, g, uid) && (Clean(f0) && IdsSlashFree(d) ==> Clean(g)) && NewPathsIn(f0, g, d, path)
    ensures if done then ChildrenSoFar(f0, g, d, path, uid, i + 1) else BuildsOn(f0, g, d, path, uid, false)
  {
    hide LinksOk, UidsOk, HandlesOk, PathsSound, NamesOk, Below, Clean, Grown, BuildOutcome, NewPathsIn, Builds,
      BuildsUpTo, BuildsOn;
    var child := d.children[i];
    assert IdsSlashFree(d) ==> IdsSlashFree(child);
    if Clean(f) && IdsSlashFree(d) {
      forall k | 0 <= k < i
        ensures f.nodes[uid].children[k] in f.nodes && f.nodes[f.nodes[uid].children[k]].NodeId() != child.id
      {
        assert Built(f.nodes, f.nodes[uid].children[k], d.children[k], path + "/" + d.children[k].id, uid, false);
      }
      ChildPathFree(f, uid, child.id);
    }
    ExtendedByChild(f0, f, g, uid, child, path + "/" + child.id);
    NewPathsByChild(f0, f, g, d, path, uid, i);
    OneMoreChild(f0, f, g, d, path, uid, i, done);
    if done {
      BuiltChildrenStep(f, g, uid, d, path, i);
    }
  }

  lemma ChildrenDone(f0: TreeState, g: TreeState, d: NodeDef, path: string, uid: Uid)
    requires ChildrenSoFar(f0, g, d, path, uid, |d.children|)
    ensures ExtendedBelow(f0, g, uid) && (Clean(f0) && IdsSlashFree(d) ==> Clean(g)) && NewPathsIn(f0, g, d, path)
    ensures |g.nodes[uid].children| == |d.children| && BuiltChildren(g.nodes, uid, d, path, |d.children|)
    ensures BuildsOn(f0, g, d, path, uid, true)
  {
    NoChildLeft(f0, g, d, path, uid);
  }

  lemma BuiltChildrenStep(f: TreeState, g: TreeState, u: Uid, d: NodeDef, path: string, i: nat)
    requires Indexed(f) && Indexed(g) && u in f.nodes && i < |d.children|
    requires BuildOutcome(f, g, d.children[i], path + "/" + d.children[i].id, u)
    requires |f.nodes[u].children| == i && BuiltChildren(f.nodes, u, d, path, i)
    requires Built(g.nodes, f.nextUid, d.children[i], path + "/" + d.children[i].id, u, false)
    ensures |g.nodes[u].children| == i + 1 && BuiltChildren(g.nodes, u, d, path, i + 1)
  {
    assert ChildrenOk(f.nodes, u) && ChildrenOk(g.nodes, u);
    forall k | 0 <= k < i
      ensures Built(g.nodes, g.nodes[u].children[k], d.children[k], path + "/" + d.children[k].id, u, false)
    {
      var c := f.nodes[u].children[k];
      assert ParentOk(f.nodes, c);
      BuiltStable(f.nodes, g.nodes, c, d.children[k], path + "/" + d.children[k].id, u, false);
    }
  }
}
