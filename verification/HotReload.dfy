/** Hot reload: dynamic instances are captured, sorted, and created again in the rebuilt document. */
module HotReload {
  import opened Text
  import opened Forest
  import opened LiveDocuments
  import opened PathIndex

  datatype Snapshot = Snapshot(templateId: string, parentPath: string, instanceId: string, order: nat)
  {
    function Path(): string {
      parentPath + "/" + instanceId
    }
  }

  // ---- The sort order ----

  predicate Before(l: Snapshot, r: Snapshot) {
    if |l.parentPath| != |r.parentPath| then |l.parentPath| < |r.parentPath|
    else if l.parentPath != r.parentPath then StringLess(l.parentPath, r.parentPath)
    else if l.order != r.order then l.order < r.order
    else StringLess(l.instanceId, r.instanceId)
  }

  /** The comparison is a strict weak order whose ties agree on everything but the template. */
  lemma BeforeIsStrictOrder(a: Snapshot, b: Snapshot, c: Snapshot)
    ensures !Before(a, a)
    ensures Before(a, b) && Before(b, c) ==> Before(a, c)
    ensures Before(a, b) || Before(b, a) || a == b.(templateId := a.templateId)
  {
    StringLessOrder(a.parentPath, b.parentPath, c.parentPath);
    StringLessOrder(a.instanceId, b.instanceId, c.instanceId);
  }

  predicate Sorted(s: seq<Snapshot>) {
    forall i, j :: 0 <= i < j < |s| ==> !Before(s[j], s[i])
  }

  // ---- Capture ----

  function IndexIn(s: seq<Uid>, u: Uid): (r: nat)
    ensures u in s ==> r < |s| && s[r] == u
  {
    if s == [] then 0 else if s[0] == u then 0 else 1 + IndexIn(s[1..], u)
  }

  /** Live nodes the capture takes a snapshot of. */
  predicate Captured(f: TreeState, u: Uid) {
    u in f.nodes && f.nodes[u].dynamic && f.nodes[u].parent in f.nodes
  }

  function SnapshotOf(f: TreeState, u: Uid): Snapshot
    requires Captured(f, u)
  {
    var n := f.nodes[u];
    var p := f.nodes[n.parent];
    Snapshot(n.definition.id, p.path, n.NodeId(), if u in p.children then IndexIn(p.children, u) else 0)
  }

  /** The snapshot says what a node was built from, where it is, and its place among its parent's children. */
  predicate Describes(f: TreeState, u: Uid, s: Snapshot)
    requires Captured(f, u)
  {
    var parent := f.nodes[f.nodes[u].parent];
    && s.templateId == f.nodes[u].definition.id
    && s.parentPath == parent.path && s.parentPath + "/" + s.instanceId == f.nodes[u].path
    && s.order < |parent.children| && parent.children[s.order] == u
  }

  /** Captured are exactly the dynamic nodes with a live parent, and a snapshot is enough to find the node again. */
  lemma CapturedExactly(f: TreeState, u: Uid)
    requires Indexed(f)
    ensures u in f.nodes ==> (Captured(f, u) <==> f.nodes[u].dynamic && f.nodes[u].parent in f.nodes)
    ensures Captured(f, u) ==> Describes(f, u, SnapshotOf(f, u))
  {
    if Captured(f, u) {
      assert ParentOk(f.nodes, u) && NameOk(f.nodes, u);
    }
  }

  method CaptureDynamicInstances(doc: LiveDocument) returns (snapshots: seq<Snapshot>, ghost uids: seq<Uid>)
    ensures |snapshots| == |uids|
    ensures forall u :: u in uids <==> Captured(doc.State(), u)
    ensures forall i, j :: 0 <= i < j < |uids| ==> uids[i] != uids[j]
    ensures forall i :: 0 <= i < |uids| ==> snapshots[i] == SnapshotOf(doc.State(), uids[i])
    ensures forall u :: Captured(doc.State(), u) ==> SnapshotOf(doc.State(), u) in snapshots
    ensures forall s :: s in snapshots ==> exists u :: Captured(doc.State(), u) && s == SnapshotOf(doc.State(), u)
  {
    hide AfterLastSlash, IndexIn;
    ghost var f := doc.State();
    snapshots, uids := [], [];
    var pending := doc.nodes.Keys;
    while pending != {}
      invariant pending <= f.nodes.Keys && |snapshots| == |uids|
      invariant forall u :: u in uids <==> Captured(f, u) && u !in pending
      invariant forall i, j :: 0 <= i < j < |uids| ==> uids[i] != uids[j]
      invariant forall i :: 0 <= i < |uids| ==> Captured(f, uids[i]) && snapshots[i] == SnapshotOf(f, uids[i])
      decreases pending
    {
      var u :| u in pending;
      pending := pending - {u};
      var record := doc.nodes[u];
      if record.dynamic && record.parent in doc.nodes {
        var parent := doc.nodes[record.parent];
        var order := if u in parent.children then IndexIn(parent.children, u) else 0;
        var snapshot := Snapshot(record.definition.id, parent.path, record.NodeId(), order);
        assert snapshot == SnapshotOf(f, u);
        snapshots, uids := snapshots + [snapshot], uids + [u];
      }
    }
  }

  // ---- The sort puts enclosing instances first ----

  lemma PathGrowsDownwards(f: TreeState, v: Uid, u: Uid)
    requires Indexed(f) && v in f.nodes && Under(f.nodes, v, u)
    ensures u in f.nodes && |f.nodes[u].path| <= |f.nodes[v].path|
    ensures v != u ==> |f.nodes[u].path| < |f.nodes[v].path|
    decreases v
  {
    if v != u {
      assert NameOk(f.nodes, v) && ParentOk(f.nodes, v);
      assert Below(ParentsOf(f.nodes), f.nodes[v].parent, u);
      PathGrowsDownwards(f, f.nodes[v].parent, u);
    }
  }

  /** An instance nested inside another one compares strictly after it. */
  lemma NestedComesLater(f: TreeState, outer: Uid, inner: Uid)
    requires Indexed(f) && Captured(f, outer) && Captured(f, inner)
    requires inner != outer && Under(f.nodes, inner, outer)
    ensures Before(SnapshotOf(f, outer), SnapshotOf(f, inner))
  {
    var po, pi := f.nodes[outer].parent, f.nodes[inner].parent;
    assert ParentOk(f.nodes, inner) && ParentOk(f.nodes, outer) && NameOk(f.nodes, outer);
    PathGrowsDownwards(f, pi, outer);
  }

  /** Instances under one parent compare by their position among its children. */
  lemma SiblingsKeepOrder(f: TreeState, a: Uid, b: Uid)
    requires Indexed(f) && Captured(f, a) && Captured(f, b) && f.nodes[a].parent == f.nodes[b].parent
    ensures Before(SnapshotOf(f, a), SnapshotOf(f, b)) <==> a < b
  {
    var p := f.nodes[a].parent;
    assert ParentOk(f.nodes, a) && ParentOk(f.nodes, b) && ChildrenOk(f.nodes, p);
    var ch := f.nodes[p].children;
    var i, j := IndexIn(ch, a), IndexIn(ch, b);
    assert ch[i] == a && ch[j] == b;
    BeforeIsStrictOrder(SnapshotOf(f, a), SnapshotOf(f, b), SnapshotOf(f, b));
  }

  /** Sorted snapshots of the listed instances, each once. */
  predicate SortedOf(f: TreeState, sorted: seq<Snapshot>, uids: seq<Uid>) {
    && Sorted(sorted) && |sorted| == |uids|
    && (forall i, j :: 0 <= i < j < |uids| ==> uids[i] != uids[j])
    && (forall i :: 0 <= i < |uids| ==> Captured(f, uids[i]) && sorted[i] == SnapshotOf(f, uids[i]))
  }

  /** `sorted` is what std::sort makes of the captured snapshots. */
  ghost predicate SortOf(f: TreeState, sorted: seq<Snapshot>, uids: seq<Uid>) {
    SortedOf(f, sorted, uids) && forall u :: u in uids <==> Captured(f, u)
  }

  /** In the sorted order every instance comes after the instances around it and after its earlier siblings. */
  lemma SortedOrder(f: TreeState, sorted: seq<Snapshot>, uids: seq<Uid>, i: nat, j: nat)
    requires Indexed(f) && SortOf(f, sorted, uids) && i < |uids| && j < |uids| && uids[i] in uids && uids[j] in uids
    ensures Under(f.nodes, uids[j], uids[i]) && i != j ==> i < j
    ensures f.nodes[uids[i]].parent == f.nodes[uids[j]].parent ==> (i < j <==> uids[i] < uids[j])
  {
    assert forall k :: 0 <= k < |uids| ==> uids[k] in uids;
    if Under(f.nodes, uids[j], uids[i]) && i != j {
      NestedComesLater(f, uids[i], uids[j]);
    }
    if f.nodes[uids[i]].parent == f.nodes[uids[j]].parent {
      SiblingsKeepOrder(f, uids[i], uids[j]);
      SiblingsKeepOrder(f, uids[j], uids[i]);
    }
  }

  // ---- Which paths an instance occupies ----

  lemma {:induction false} BuiltHasPath(nodes: map<Uid, NodeRecord>, u: Uid, d: NodeDef, path: string, parent: Uid,
                                        dynamic: bool, p: string) returns (v: Uid)
    requires Built(nodes, u, d, path, parent, dynamic) && PathIn(d, path, p)
    ensures v in nodes && nodes[v].path == p
    decreases d
  {
    if p == path {
      v := u;
    } else {
      var i :| 0 <= i < |d.children| && PathIn(d.children[i], path + "/" + d.children[i].id, p);
      v := BuiltHasPath(nodes, nodes[u].children[i], d.children[i], path + "/" + d.children[i].id, u, false, p);
    }
  }

  lemma {:induction false} BuiltOnlyPaths(f: TreeState, u: Uid, d: NodeDef, path: string, parent: Uid, dynamic: bool,
                                          v: Uid)
    requires Indexed(f) && Built(f.nodes, u, d, path, parent, dynamic) && Under(f.nodes, v, u)
    ensures v in f.nodes && PathIn(d, path, f.nodes[v].path)
    decreases d
  {
    UnderChildren(f, u, v);
    if v != u {
      var ch := f.nodes[u].children;
      var k :| 0 <= k < |ch| && Under(f.nodes, v, ch[k]);
      BuiltOnlyPaths(f, ch[k], d.children[k], path + "/" + d.children[k].id, u, false, v);
    }
  }

  /** The paths of the listed screens, as their definitions render them. */
  function StaticPaths(screens: map<string, NodeDef>, wanted: set<string>): set<string> {
    set s, p | s in wanted && s in screens && p in Rendered(screens[s], "/" + s) :: p
  }

  /** The index of a rebuilt document holds exactly the paths of its screens. */
  lemma RebuiltPaths(f: TreeState, first: nat, screens: map<string, NodeDef>)
    requires WellFormed(f) && Rebuilt(f, first, screens) && Clean(f)
    ensures f.pathToUid.Keys == StaticPaths(screens, f.screenRoots.Keys)
  {
    hide UidsOk, HandlesOk, Below, AfterLastSlash, PathIn, Rendered, Built;
    forall p ensures p in f.pathToUid <==> p in StaticPaths(screens, f.screenRoots.Keys) {
      if p in f.pathToUid {
        var w := f.pathToUid[p];
        var s := RootListed(f, w);
        BuiltOnlyPaths(f, f.screenRoots[s], screens[s], "/" + s, 0, false, w);
        RenderedIsPathIn(screens[s], "/" + s, p);
      }
      if p in StaticPaths(screens, f.screenRoots.Keys) {
        var s :| s in f.screenRoots && s in screens && p in Rendered(screens[s], "/" + s);
        RenderedIsPathIn(screens[s], "/" + s, p);
        var v := BuiltHasPath(f.nodes, f.screenRoots[s], screens[s], "/" + s, 0, false, p);
      }
    }
  }

  lemma RootListed(f: TreeState, w: Uid) returns (s: string)
    requires WellFormed(f) && Clean(f) && RootsListed(f) && w in f.nodes
    ensures s in f.screenRoots && Under(f.nodes, w, f.screenRoots[s])
  {
    hide UidsOk, HandlesOk, Below, NodeRecord.NodeId;
    NoZeroNode(f);
    RelativePathRenders(f.nodes, w);
    var r := RootOf(f.nodes, w);
    s := f.nodes[r].NodeId();
    OneRootPerName(f, r, f.screenRoots[s]);
  }

  // ---- Replay ----

  /** create_view got as far as building. */
  predicate Attempted(r: Result<string, ViewError>) {
    r.Success? || BuildFails(r)
  }

  /** `p` is a path of the instance the snapshot describes, made from the new templates. */
  predicate Inside(templates: map<string, NodeDef>, s: Snapshot, p: string) {
    s.templateId in templates && PathIn(templates[s.templateId], s.Path(), p)
  }

  predicate InCreated(templates: map<string, NodeDef>, snapshots: seq<Snapshot>,
                      results: seq<Result<string, ViewError>>, k: nat, p: string)
    requires k <= |snapshots| && k <= |results|
  {
    exists j :: 0 <= j < k && results[j].Success? && Inside(templates, snapshots[j], p)
  }

  predicate InAttempted(templates: map<string, NodeDef>, snapshots: seq<Snapshot>,
                        results: seq<Result<string, ViewError>>, k: nat, p: string)
    requires k <= |snapshots| && k <= |results|
  {
    exists j :: 0 <= j < k && Attempted(results[j]) && Inside(templates, snapshots[j], p)
  }

  /** The template is there, the parent is static or in a created instance, and nothing made so far has the name. */
  predicate Placeable(keys: set<string>, templates: map<string, NodeDef>, snapshots: seq<Snapshot>,
                      results: seq<Result<string, ViewError>>, k: nat)
    requires k < |snapshots| && k < |results|
  {
    var s := snapshots[k];
    && s.templateId in templates
    && (s.parentPath in keys || InCreated(templates, snapshots, results, k, s.parentPath))
    && s.Path() !in keys && !InAttempted(templates, snapshots, results, k, s.Path())
  }

  /** The same up to what a build that failed part-way may have left. */
  predicate Conceivable(keys: set<string>, templates: map<string, NodeDef>, snapshots: seq<Snapshot>,
                        results: seq<Result<string, ViewError>>, k: nat)
    requires k < |snapshots| && k < |results|
  {
    var s := snapshots[k];
    && s.templateId in templates
    && (s.parentPath in keys || InAttempted(templates, snapshots, results, k, s.parentPath))
    && s.Path() !in keys && !InCreated(templates, snapshots, results, k, s.Path())
  }

  predicate Decided(keys: set<string>, templates: map<string, NodeDef>, snapshots: seq<Snapshot>,
                    results: seq<Result<string, ViewError>>, k: nat)
    requires k < |snapshots| && k < |results|
  {
    && (Placeable(keys, templates, snapshots, results, k) ==> Attempted(results[k]))
    && (Attempted(results[k]) ==> Conceivable(keys, templates, snapshots, results, k))
  }

  /** The instance is live again under its old path, from its old template, below its old parent path. */
  predicate Recreated(templates: map<string, NodeDef>, s: Snapshot, f: TreeState) {
    && s.templateId in templates && s.Path() in f.pathToUid
    && var u := f.pathToUid[s.Path()];
       && Captured(f, u) && f.nodes[u].definition == templates[s.templateId]
       && f.nodes[u].path == s.Path() && f.nodes[f.nodes[u].parent].path == s.parentPath
  }

  /** Whatever was created is there, and in creation order. */
  predicate CreatedInOrder(templates: map<string, NodeDef>, snapshots: seq<Snapshot>,
                           results: seq<Result<string, ViewError>>, i: nat, f: TreeState)
    requires i <= |snapshots| && i <= |results|
  {
    && (forall k :: 0 <= k < i && results[k].Success? ==>
          results[k].value == snapshots[k].Path() && Recreated(templates, snapshots[k], f))
    && (forall j, k :: 0 <= j < k < i && results[j].Success? && results[k].Success? ==>
          f.pathToUid[snapshots[j].Path()] < f.pathToUid[snapshots[k].Path()])
  }

  /** The index holds the static paths and those of the created instances, and nothing no attempt accounts for. */
  ghost predicate PathsBetween(keys: set<string>, templates: map<string, NodeDef>, snapshots: seq<Snapshot>,
                               results: seq<Result<string, ViewError>>, i: nat, f: TreeState)
    requires i <= |snapshots| && i <= |results|
  {
    && (forall p :: p in keys || InCreated(templates, snapshots, results, i, p) ==> p in f.pathToUid)
    && (forall p :: p in f.pathToUid ==> p in keys || InAttempted(templates, snapshots, results, i, p))
  }

  /** The document after the first `i` snapshots met the first `i` results. */
  ghost predicate Replayed(keys: set<string>, templates: map<string, NodeDef>, snapshots: seq<Snapshot>,
                           results: seq<Result<string, ViewError>>, i: nat, f: TreeState)
    requires i <= |snapshots| && i <= |results|
  {
    && PathsBetween(keys, templates, snapshots, results, i, f)
    && CreatedInOrder(templates, snapshots, results, i, f)
    && forall k :: 0 <= k < i ==> Decided(keys, templates, snapshots, results, k)
  }

  lemma InNext(templates: map<string, NodeDef>, snapshots: seq<Snapshot>, results: seq<Result<string, ViewError>>,
               i: nat, p: string)
    requires i < |snapshots| && i < |results|
    ensures InCreated(templates, snapshots, results, i + 1, p) <==>
            InCreated(templates, snapshots, results, i, p) ||
                (results[i].Success? && Inside(templates, snapshots[i], p))
    ensures InAttempted(templates, snapshots, results, i + 1, p) <==>
            InAttempted(templates, snapshots, results, i, p) ||
                (Attempted(results[i]) && Inside(templates, snapshots[i], p))
  {
    hide Inside;
  }

  /** Only the results so far matter. */
  lemma SamePast(keys: set<string>, templates: map<string, NodeDef>, snapshots: seq<Snapshot>,
                 a: seq<Result<string, ViewError>>, b: seq<Result<string, ViewError>>, i: nat, f: TreeState)
    requires i <= |snapshots| && i <= |a| && i <= |b| && forall k :: 0 <= k < i ==> a[k] == b[k]
    requires Replayed(keys, templates, snapshots, a, i, f)
    ensures Replayed(keys, templates, snapshots, b, i, f)
  {
    hide Inside, Recreated;
    forall k, p | 0 <= k <= i
      ensures InCreated(templates, snapshots, a, k, p) <==> InCreated(templates, snapshots, b, k, p)
      ensures InAttempted(templates, snapshots, a, k, p) <==> InAttempted(templates, snapshots, b, k, p)
    {
    }
    forall k | 0 <= k < i ensures Decided(keys, templates, snapshots, b, k) {
      assert Decided(keys, templates, snapshots, a, k);
    }
  }

  lemma NothingReplayed(keys: set<string>, templates: map<string, NodeDef>, snapshots: seq<Snapshot>, f: TreeState)
    requires f.pathToUid.Keys == keys
    ensures Replayed(keys, templates, snapshots, [], 0, f)
  {
  }

  /** What the create_view guard says of a snapshot. */
  predicate Allowed(f: TreeState, templates: map<string, NodeDef>, s: Snapshot) {
    s.templateId in templates && s.parentPath in f.pathToUid && s.Path() !in f.pathToUid
  }

  lemma GuardDecides(keys: set<string>, templates: map<string, NodeDef>, snapshots: seq<Snapshot>,
                     results: seq<Result<string, ViewError>>, i: nat, f: TreeState)
    requires i < |snapshots| && i < |results| && PathsBetween(keys, templates, snapshots, results, i, f)
    requires Attempted(results[i]) <==> Allowed(f, templates, snapshots[i])
    ensures Decided(keys, templates, snapshots, results, i)
  {
    hide InCreated, InAttempted;
  }

  lemma PathsAfterStep(keys: set<string>, templates: map<string, NodeDef>, snapshots: seq<Snapshot>,
                       results: seq<Result<string, ViewError>>, i: nat, f: TreeState, g: TreeState, parent: Uid)
    requires i < |snapshots| && i < |results| && PathsBetween(keys, templates, snapshots, results, i, f)
    requires Attempted(results[i]) && snapshots[i].templateId in templates && PathsSound(g) && PathsComplete(g)
    requires PathsComplete(f) && BuildOutcome(f, g, templates[snapshots[i].templateId], snapshots[i].Path(), parent)
    requires results[i].Success? ==>
      Built(g.nodes, f.nextUid, templates[snapshots[i].templateId], snapshots[i].Path(), parent, true)
    ensures PathsBetween(keys, templates, snapshots, results, i + 1, g)
  {
    hide InCreated, InAttempted, Clean, IdsSlashFree, Built;
    var s := snapshots[i];
    forall p
      ensures p in keys || InCreated(templates, snapshots, results, i + 1, p) ==> p in g.pathToUid
      ensures p in g.pathToUid ==> p in keys || InAttempted(templates, snapshots, results, i + 1, p)
    {
      InNext(templates, snapshots, results, i, p);
      if results[i].Success? && Inside(templates, s, p) {
        var v := BuiltHasPath(g.nodes, f.nextUid, templates[s.templateId], s.Path(), parent, true, p);
      }
    }
  }

  lemma NoNewPath(keys: set<string>, templates: map<string, NodeDef>, snapshots: seq<Snapshot>,
                  results: seq<Result<string, ViewError>>, i: nat, f: TreeState)
    requires i < |snapshots| && i < |results| && PathsBetween(keys, templates, snapshots, results, i, f)
    requires !Attempted(results[i])
    ensures PathsBetween(keys, templates, snapshots, results, i + 1, f)
  {
    hide InCreated, InAttempted, Inside;
    forall p
      ensures InCreated(templates, snapshots, results, i + 1, p) <==> InCreated(templates, snapshots, results, i, p)
      ensures InAttempted(templates, snapshots, results, i + 1, p) <==> InAttempted(templates, snapshots, results, i, p)
    {
      InNext(templates, snapshots, results, i, p);
    }
  }

  /** Creating one more instance, finished or not, keeps the earlier ones where they are. */
  lemma RecreatedStays(templates: map<string, NodeDef>, s: Snapshot, f: TreeState, g: TreeState, parent: Uid)
    requires Recreated(templates, s, f) && Grown(f, g, parent)
    ensures Recreated(templates, s, g) && g.pathToUid[s.Path()] == f.pathToUid[s.Path()]
  {
    hide Below;
  }

  lemma NewInstance(templates: map<string, NodeDef>, s: Snapshot, f: TreeState, g: TreeState, parent: Uid)
    requires PathsSound(f) && PathsComplete(g) && Grown(f, g, parent) && Allowed(f, templates, s)
    requires f.pathToUid[s.parentPath] == parent
    requires Built(g.nodes, f.nextUid, templates[s.templateId], s.Path(), parent, true)
    ensures Recreated(templates, s, g) && g.pathToUid[s.Path()] == f.nextUid
  {
    hide Below;
  }

  lemma CreatedAfterStep(templates: map<string, NodeDef>, snapshots: seq<Snapshot>,
                         results: seq<Result<string, ViewError>>, i: nat, f: TreeState, g: TreeState, parent: Uid)
    requires i < |snapshots| && i < |results| && CreatedInOrder(templates, snapshots, results, i, f)
    requires Indexed(f) && PathsComplete(g) && Grown(f, g, parent)
    requires results[i].Success? ==>
      && results[i].value == snapshots[i].Path() && Allowed(f, templates, snapshots[i])
      && f.pathToUid[snapshots[i].parentPath] == parent && f.nextUid != 0
      && Built(g.nodes, f.nextUid, templates[snapshots[i].templateId], snapshots[i].Path(), parent, true)
    ensures CreatedInOrder(templates, snapshots, results, i + 1, g)
  {
    hide Below, Built, Recreated, LinksOk, NamesOk;
    forall k | 0 <= k < i && results[k].Success?
      ensures Recreated(templates, snapshots[k], g)
      ensures snapshots[k].Path() in f.pathToUid && snapshots[k].Path() in g.pathToUid
      ensures g.pathToUid[snapshots[k].Path()] == f.pathToUid[snapshots[k].Path()]
      ensures f.nextUid != 0 ==> f.pathToUid[snapshots[k].Path()] < f.nextUid
    {
      RecreatedStays(templates, snapshots[k], f, g, parent);
      LiveBelowNext(templates, snapshots[k], f);
    }
    if results[i].Success? {
      NewInstance(templates, snapshots[i], f, g, parent);
    }
  }

  lemma LiveBelowNext(templates: map<string, NodeDef>, s: Snapshot, f: TreeState)
    requires Recreated(templates, s, f) && Indexed(f)
    ensures s.Path() in f.pathToUid && (f.nextUid != 0 ==> f.pathToUid[s.Path()] < f.nextUid)
  {
    hide LinksOk, NamesOk, HandlesOk;
  }

  /** A snapshot of the shape the capture produces: create_view takes its two paths as they are. */
  predicate Shaped(s: Snapshot) {
    Segment(s.instanceId) && NormalizePath(s.parentPath) == s.parentPath && s.parentPath != "/"
  }

  /** A clean index, ids without slashes, snapshots as captured. */
  ghost predicate Ready(f: TreeState, templates: map<string, NodeDef>, snapshots: seq<Snapshot>) {
    Clean(f) && AllSlashFree(templates) && forall k :: 0 <= k < |snapshots| ==> Shaped(snapshots[k])
  }

  /** How many requests the backend refused while these results came about. */
  function RefusalsIn(results: seq<Result<string, ViewError>>): nat {
    if results == [] then 0 else
      var last := results[|results| - 1];
      RefusalsIn(results[..|results| - 1]) + if BuildFails(last) then Blame(last.error.cause) else 0
  }

  predicate RanOut(results: seq<Result<string, ViewError>>) {
    exists k :: 0 <= k < |results| && BuildFails(results[k]) && results[k].error.cause.UidsExhausted?
  }

  lemma OneMoreResult(results: seq<Result<string, ViewError>>, r: Result<string, ViewError>)
    ensures RefusalsIn(results + [r]) == RefusalsIn(results) + if BuildFails(r) then Blame(r.error.cause) else 0
    ensures RanOut(results + [r]) <==> RanOut(results) || RanOut([r])
  {
    var all := results + [r];
    assert all[..|all| - 1] == results;
    assert all[|results|] == [r][0];
    assert forall k :: 0 <= k < |results| ==> all[k] == results[k];
  }

  /** Where the backend refused nothing and the uids lasted, no build failed. */
  lemma NothingFailed(results: seq<Result<string, ViewError>>)
    requires RefusalsIn(results) == 0 && !RanOut(results)
    ensures forall k :: 0 <= k < |results| ==> !BuildFails(results[k])
  {
    if results != [] {
      var front := results[..|results| - 1];
      assert forall k :: 0 <= k < |front| ==> front[k] == results[k];
      NothingFailed(front);
    }
  }

  /** One snapshot; `past` are the results before it. */
  method ReplayOne(doc: LiveDocument, snapshots: seq<Snapshot>, i: nat, ghost past: seq<Result<string, ViewError>>,
                   ghost keys: set<string>) returns (r: Result<string, ViewError>)
    requires doc.Valid() && |past| == i < |snapshots|
    modifies doc, doc.backend
    ensures doc.Valid() && doc.templates == old(doc.templates) && doc.screens == old(doc.screens)
    ensures Touches(old(doc.BackendSide()), doc.BackendSide())
    ensures doc.backend.refusals == old(doc.backend.refusals) + if BuildFails(r) then Blame(r.error.cause) else 0
    ensures old(doc.nextUid) == 0 || RanOut([r]) ==> doc.nextUid == 0
    ensures old(Clean(doc.State())) && AllSlashFree(doc.templates) && Shaped(snapshots[i])
            && old(Replayed(keys, doc.templates, snapshots, past, i, doc.State())) ==>
      Clean(doc.State()) && Replayed(keys, doc.templates, snapshots, past + [r], i + 1, doc.State())
  {
    hide Indexed, RootsOk, Mirrors, Touches, Settled, Clean, BuildOutcome, Built, Replayed, NormalizePath, TrimSlashes,
      DefinitionsFit, IdsSlashFree;
    ghost var f, s := doc.State(), snapshots[i];
    r := doc.CreateView(snapshots[i].templateId, snapshots[i].parentPath, snapshots[i].instanceId);
    if Clean(f) && AllSlashFree(doc.templates) && Shaped(s) && Replayed(keys, doc.templates, snapshots, past, i, f) {
      TrimSegment(s.instanceId);
      SamePast(keys, doc.templates, snapshots, past, past + [r], i, f);
      if Allowed(f, doc.templates, s) {
        OutcomeIsClean(f, doc.State(), doc.templates[s.templateId], s.Path(), f.pathToUid[s.parentPath]);
        ReplayStep(keys, doc.templates, snapshots, past + [r], i, f, doc.State(), f.pathToUid[s.parentPath]);
      } else {
        RefusedStep(keys, doc.templates, snapshots, past + [r], i, f);
      }
    }
  }

  lemma ReplayStep(keys: set<string>, templates: map<string, NodeDef>, snapshots: seq<Snapshot>,
                   results: seq<Result<string, ViewError>>, i: nat, f: TreeState, g: TreeState, parent: Uid)
    requires i < |snapshots| && i < |results| && Replayed(keys, templates, snapshots, results, i, f)
    requires Indexed(f) && Clean(f) && Indexed(g) && Clean(g) && Allowed(f, templates, snapshots[i])
    requires f.pathToUid[snapshots[i].parentPath] == parent && Attempted(results[i])
    requires BuildOutcome(f, g, templates[snapshots[i].templateId], snapshots[i].Path(), parent)
    requires results[i].Success? ==>
      && results[i].value == snapshots[i].Path()
      && Built(g.nodes, f.nextUid, templates[snapshots[i].templateId], snapshots[i].Path(), parent, true)
    ensures Replayed(keys, templates, snapshots, results, i + 1, g)
  {
    hide LinksOk, UidsOk, HandlesOk, NamesOk, Below, PathsBetween, CreatedInOrder, Decided, IdsSlashFree, NewPathsIn;
    GuardDecides(keys, templates, snapshots, results, i, f);
    PathsAfterStep(keys, templates, snapshots, results, i, f, g, parent);
    BuiltNextUid(f, g, templates[snapshots[i].templateId], snapshots[i].Path(), parent);
    CreatedAfterStep(templates, snapshots, results, i, f, g, parent);
  }

  lemma BuiltNextUid(f: TreeState, g: TreeState, d: NodeDef, path: string, parent: Uid)
    requires Indexed(f) && Indexed(g) && Grown(f, g, parent)
    ensures Built(g.nodes, f.nextUid, d, path, parent, true) ==> f.nextUid != 0
  {
    NoZeroNode(g);
  }

  lemma RefusedStep(keys: set<string>, templates: map<string, NodeDef>, snapshots: seq<Snapshot>,
                    results: seq<Result<string, ViewError>>, i: nat, f: TreeState)
    requires i < |snapshots| && i < |results| && Replayed(keys, templates, snapshots, results, i, f)
    requires !Attempted(results[i]) && !Allowed(f, templates, snapshots[i])
    ensures Replayed(keys, templates, snapshots, results, i + 1, f)
  {
    hide PathsBetween, Decided, Recreated;
    GuardDecides(keys, templates, snapshots, results, i, f);
    NoNewPath(keys, templates, snapshots, results, i, f);
  }

  /** Creates every snapshot in order and goes on when one is refused or fails. */
  method Replay(doc: LiveDocument, snapshots: seq<Snapshot>) returns (results: seq<Result<string, ViewError>>)
    requires doc.Valid()
    modifies doc, doc.backend
    ensures doc.Valid() && doc.templates == old(doc.templates) && doc.screens == old(doc.screens)
    ensures |results| == |snapshots|
    ensures doc.backend.refusals == old(doc.backend.refusals) + RefusalsIn(results)
    ensures old(doc.nextUid) == 0 || RanOut(results) ==> doc.nextUid == 0
    ensures old(Ready(doc.State(), doc.templates, snapshots)) ==>
      && Clean(doc.State())
      && Replayed(old(doc.State()).pathToUid.Keys, doc.templates, snapshots, results, |snapshots|, doc.State())
  {
    hide Indexed, RootsOk, Mirrors, Touches, Clean, Replayed, DefinitionsFit, AllSlashFree, Shaped;
    ghost var keys, ready := doc.pathToUid.Keys, Ready(doc.State(), doc.templates, snapshots);
    NothingReplayed(keys, doc.templates, snapshots, doc.State());
    results := [];
    for i := 0 to |snapshots|
      invariant doc.Valid() && doc.templates == old(doc.templates) && doc.screens == old(doc.screens) && |results| == i
      invariant doc.backend.refusals == old(doc.backend.refusals) + RefusalsIn(results)
      invariant old(doc.nextUid) == 0 || RanOut(results) ==> doc.nextUid == 0
      invariant ready ==> Clean(doc.State()) && Replayed(keys, doc.templates, snapshots, results, i, doc.State())
    {
      var r := ReplayOne(doc, snapshots, i, results, keys);
      OneMoreResult(results, r);
      results := results + [r];
    }
  }

  // ---- Which instances come back ----

  lemma LivePathIsNormal(f: TreeState, u: Uid)
    requires Indexed(f) && Clean(f) && u in f.nodes
    ensures |f.nodes[u].path| > 1 && f.nodes[u].path[0] == '/' && f.nodes[u].path[1] != '/'
    ensures NormalizePath(f.nodes[u].path) == f.nodes[u].path
    decreases u
  {
    hide AfterLastSlash;
    assert NameOk(f.nodes, u) && ParentOk(f.nodes, u);
    var id, p := f.nodes[u].NodeId(), f.nodes[u].parent;
    assert id[0] in id && id[|id| - 1] in id;
    if p != 0 {
      LivePathIsNormal(f, p);
    } else {
      assert 0 !in f.nodes;
    }
    NormalizeKeeps(f.nodes[u].path);
  }

  lemma SnapshotPath(f: TreeState, u: Uid)
    requires Indexed(f) && Captured(f, u)
    ensures SnapshotOf(f, u).Path() == f.nodes[u].path
  {
    assert NameOk(f.nodes, u);
  }

  lemma CapturedShape(f: TreeState, u: Uid)
    requires Indexed(f) && Clean(f) && Captured(f, u)
    ensures Shaped(SnapshotOf(f, u))
  {
    hide AfterLastSlash, NormalizePath;
    LivePathIsNormal(f, f.nodes[u].parent);
    assert NameOk(f.nodes, u);
  }

  /** Neither a static path nor a path of another captured instance is the instance's own. */
  predicate NameFree(f: TreeState, keys: set<string>, templates: map<string, NodeDef>, u: Uid) {
    && u in f.nodes && f.nodes[u].path !in keys
    && forall v :: v in f.nodes && Captured(f, v) && v != u ==> !Inside(templates, SnapshotOf(f, v), f.nodes[u].path)
  }

  /**
   * The instance's template is still there, its name is free, and its parent path is static or inside an instance
   * around it that itself survives.
   */
  predicate Survives(f: TreeState, keys: set<string>, templates: map<string, NodeDef>, u: Uid)
    decreases u
  {
    && Captured(f, u) && SnapshotOf(f, u).templateId in templates && NameFree(f, keys, templates, u)
    && (SnapshotOf(f, u).parentPath in keys ||
        exists v :: v in f.nodes && v < u && Under(f.nodes, u, v) && Survives(f, keys, templates, v)
                    && Inside(templates, SnapshotOf(f, v), SnapshotOf(f, u).parentPath))
  }

  /** Building the instance or one around it failed. */
  predicate FailedAround(f: TreeState, uids: seq<Uid>, results: seq<Result<string, ViewError>>, u: Uid)
    requires |results| == |uids|
  {
    exists k :: 0 <= k < |uids| && BuildFails(results[k]) && Under(f.nodes, u, uids[k])
  }

  lemma FailedAroundOuter(f: TreeState, uids: seq<Uid>, results: seq<Result<string, ViewError>>, u: Uid, v: Uid)
    requires |results| == |uids| && Under(f.nodes, u, v) && FailedAround(f, uids, results, v)
    ensures FailedAround(f, uids, results, u)
  {
    var k :| 0 <= k < |uids| && BuildFails(results[k]) && Under(f.nodes, v, uids[k]);
    BelowTrans(ParentsOf(f.nodes), u, v, uids[k]);
    assert Under(f.nodes, u, uids[k]);
  }

  /** Every surviving instance whose build, and the builds around it, did not fail was created. */
  lemma {:induction false} SurvivorCreated(f: TreeState, sorted: seq<Snapshot>, uids: seq<Uid>, keys: set<string>,
                                           templates: map<string, NodeDef>, results: seq<Result<string, ViewError>>,
                                           k: nat)
    requires Indexed(f) && SortOf(f, sorted, uids) && |results| == |uids| && k < |uids| && uids[k] in uids
    requires forall j :: 0 <= j < |uids| ==> Decided(keys, templates, sorted, results, j)
    requires Survives(f, keys, templates, uids[k]) && !FailedAround(f, uids, results, uids[k])
    ensures results[k].Success?
  {
    hide Indexed, NameFree, Sorted, Below, Inside, Placeable, Conceivable, Survives, FailedAround, Captured, SnapshotOf;
    SurvivorFacts(f, keys, templates, uids[k]);
    if sorted[k].parentPath !in keys {
      var j := EnclosingSurvivor(f, sorted, uids, keys, templates, k);
      if FailedAround(f, uids, results, uids[j]) {
        FailedAroundOuter(f, uids, results, uids[k], uids[j]);
      }
      SurvivorCreated(f, sorted, uids, keys, templates, results, j);
    }
    NameFreeNow(f, sorted, uids, keys, templates, results, k);
    SurvivorPlaceable(f, sorted, uids, keys, templates, results, k);
    assert Decided(keys, templates, sorted, results, k);
    OwnFailure(f, uids, results, k);
  }

  lemma SurvivorFacts(f: TreeState, keys: set<string>, templates: map<string, NodeDef>, u: Uid)
    requires Survives(f, keys, templates, u)
    ensures Captured(f, u) && SnapshotOf(f, u).templateId in templates && NameFree(f, keys, templates, u)
  {
  }

  lemma OwnFailure(f: TreeState, uids: seq<Uid>, results: seq<Result<string, ViewError>>, k: nat)
    requires |results| == |uids| && k < |uids| && uids[k] in f.nodes && !FailedAround(f, uids, results, uids[k])
    ensures !BuildFails(results[k])
  {
    assert Under(f.nodes, uids[k], uids[k]);
  }

  /** The surviving instance around `uids[k]` that holds its parent path was sorted before it. */
  lemma EnclosingSurvivor(f: TreeState, sorted: seq<Snapshot>, uids: seq<Uid>, keys: set<string>,
                          templates: map<string, NodeDef>, k: nat) returns (j: nat)
    requires Indexed(f) && SortOf(f, sorted, uids) && k < |uids| && uids[k] in uids
    requires Survives(f, keys, templates, uids[k]) && sorted[k].parentPath !in keys
    ensures j < k && uids[j] in uids && Under(f.nodes, uids[k], uids[j]) && Survives(f, keys, templates, uids[j])
    ensures Inside(templates, sorted[j], sorted[k].parentPath)
  {
    hide Indexed, NameFree, Sorted, Below, Inside, Captured, SnapshotOf;
    var u := uids[k];
    var v :| v in f.nodes && v < u && Under(f.nodes, u, v) && Survives(f, keys, templates, v)
             && Inside(templates, SnapshotOf(f, v), SnapshotOf(f, u).parentPath);
    assert v in uids;
    j :| 0 <= j < |uids| && uids[j] == v;
    SortedOrder(f, sorted, uids, j, k);
  }

  lemma SurvivorPlaceable(f: TreeState, sorted: seq<Snapshot>, uids: seq<Uid>, keys: set<string>,
                          templates: map<string, NodeDef>, results: seq<Result<string, ViewError>>, k: nat)
    requires |sorted| == |uids| == |results| && k < |uids|
    requires sorted[k].templateId in templates
    requires sorted[k].Path() !in keys && !InAttempted(templates, sorted, results, k, sorted[k].Path())
    requires sorted[k].parentPath in keys ||
             exists j :: 0 <= j < k && results[j].Success? && Inside(templates, sorted[j], sorted[k].parentPath)
    ensures Placeable(keys, templates, sorted, results, k)
  {
    hide Inside;
  }

  lemma NameFreeNow(f: TreeState, sorted: seq<Snapshot>, uids: seq<Uid>, keys: set<string>,
                    templates: map<string, NodeDef>, results: seq<Result<string, ViewError>>, k: nat)
    requires Indexed(f) && SortOf(f, sorted, uids) && |results| == |uids| && k < |uids|
    requires NameFree(f, keys, templates, uids[k])
    ensures sorted[k].Path() !in keys && !InAttempted(templates, sorted, results, k, sorted[k].Path())
  {
    hide Inside, LinksOk, UidsOk, HandlesOk, PathsSound, Below, Sorted, SnapshotOf;
    SnapshotPath(f, uids[k]);
    forall j | 0 <= j < k ensures !Inside(templates, sorted[j], sorted[k].Path()) {
      assert uids[j] in f.nodes && uids[j] != uids[k];
    }
  }

  /** `a` comes before `b` among the children of one node. */
  predicate Precedes(nodes: map<Uid, NodeRecord>, a: Uid, b: Uid) {
    && a in nodes && b in nodes && nodes[a].parent == nodes[b].parent && nodes[a].parent in nodes
    && var ch := nodes[nodes[a].parent].children;
       a in ch && b in ch && IndexIn(ch, a) < IndexIn(ch, b)
  }

  /** Instances that were siblings and came back are siblings in the same order. */
  lemma SiblingsBackInOrder(f: TreeState, sorted: seq<Snapshot>, uids: seq<Uid>, templates: map<string, NodeDef>,
                            results: seq<Result<string, ViewError>>, g: TreeState, j: nat, k: nat)
    requires Indexed(f) && SortOf(f, sorted, uids) && |results| == |uids| && j < |uids| && k < |uids|
    requires uids[j] in uids && uids[k] in uids && Indexed(g) && Clean(g)
    requires CreatedInOrder(templates, sorted, results, |sorted|, g) && results[j].Success? && results[k].Success?
    requires Precedes(f.nodes, uids[j], uids[k])
    ensures Precedes(g.nodes, g.pathToUid[sorted[j].Path()], g.pathToUid[sorted[k].Path()])
  {
    hide UidsOk, HandlesOk, NamesOk, Below, Sorted, IndexIn, SnapshotOf;
    NoZeroNode(f);
    NoZeroNode(g);
    PositionIsAge(f.nodes, uids[j], uids[k]);
    SortedOrder(f, sorted, uids, j, k);
    assert Recreated(templates, sorted[j], g) && Recreated(templates, sorted[k], g);
    SameParentPath(f, uids[j], uids[k]);
    var a, b := g.pathToUid[sorted[j].Path()], g.pathToUid[sorted[k].Path()];
    assert g.nodes[g.nodes[a].parent].path == g.nodes[g.nodes[b].parent].path;
    PositionIsAge(g.nodes, a, b);
  }

  /** Child lists are increasing, so the position among siblings is the order of the uids. */
  lemma PositionIsAge(nodes: map<Uid, NodeRecord>, a: Uid, b: Uid)
    requires LinksOk(nodes) && a in nodes && b in nodes && nodes[a].parent == nodes[b].parent &&
             nodes[a].parent in nodes
    requires nodes[a].parent != 0
    ensures Precedes(nodes, a, b) <==> a < b
  {
    assert ParentOk(nodes, a) && ParentOk(nodes, b) && ChildrenOk(nodes, nodes[a].parent);
    var ch := nodes[nodes[a].parent].children;
    var i, j := IndexIn(ch, a), IndexIn(ch, b);
    assert ch[i] == a && ch[j] == b;
  }

  lemma SameParentPath(f: TreeState, a: Uid, b: Uid)
    requires Captured(f, a) && Captured(f, b) && f.nodes[a].parent == f.nodes[b].parent
    ensures SnapshotOf(f, a).parentPath == SnapshotOf(f, b).parentPath
  {
  }

  // ---- Sorting ----

  lemma InsertKeepsSorted(s: seq<Snapshot>, x: Snapshot, at: nat)
    requires Sorted(s) && at <= |s|
    requires forall i :: 0 <= i < at ==> !Before(x, s[i])
    requires at < |s| ==> Before(x, s[at])
    ensures Sorted(s[..at] + [x] + s[at..])
  {
    hide Before;
    var t := s[..at] + [x] + s[at..];
    forall i, j | 0 <= i < j < |t| ensures !Before(t[j], t[i]) {
      if i == at {
        var y, z := s[j - 1], s[at];
        assert t[j] == y;
        BeforeIsStrictOrder(y, x, z);
        BeforeIsStrictOrder(z, x, z);
        BeforeIsStrictOrder(x, z, x);
        BeforeIsStrictOrder(z, z, z);
      } else if j == at {
        assert t[i] == s[i];
      } else {
        assert t[i] == s[if i < at then i else i - 1] && t[j] == s[if j < at then j else j - 1];
      }
    }
  }

  method Insert(s: seq<Snapshot>, x: Snapshot, ghost f: TreeState, ghost uids: seq<Uid>, ghost u: Uid)
    returns (t: seq<Snapshot>, ghost after: seq<Uid>)
    requires SortedOf(f, s, uids) && Captured(f, u) && x == SnapshotOf(f, u) && u !in uids
    ensures SortedOf(f, t, after) && forall v :: v in after <==> v in uids || v == u
  {
    hide Before, Captured, SnapshotOf;
    var at := 0;
    while at < |s| && !Before(x, s[at])
      invariant at <= |s| && forall i :: 0 <= i < at ==> !Before(x, s[i])
    {
      at := at + 1;
    }
    InsertKeepsSorted(s, x, at);
    t, after := s[..at] + [x] + s[at..], uids[..at] + [u] + uids[at..];
    assert forall i :: 0 <= i < |after| ==> after[i] == if i < at then uids[i] else if i == at then u else uids[i - 1];
    forall v ensures v in after <==> v in uids || v == u {
      if v in uids {
        var k :| 0 <= k < |uids| && uids[k] == v;
        assert after[if k < at then k else k + 1] == v;
      }
      assert after[at] == u;
    }
  }

  /** Stands in for the library sort: any order in which no snapshot comes before an earlier one. */
  method SortSnapshots(s: seq<Snapshot>, ghost f: TreeState, ghost uids: seq<Uid>)
    returns (sorted: seq<Snapshot>, ghost order: seq<Uid>)
    requires |s| == |uids| && forall i :: 0 <= i < |uids| ==> Captured(f, uids[i]) && s[i] == SnapshotOf(f, uids[i])
    requires forall i, j :: 0 <= i < j < |uids| ==> uids[i] != uids[j]
    ensures SortedOf(f, sorted, order) && forall u :: u in order <==> u in uids
  {
    hide Before, Captured, SnapshotOf;
    sorted, order := [], [];
    for i := 0 to |s|
      invariant SortedOf(f, sorted, order)
      invariant forall u :: u in order <==> exists k :: 0 <= k < i && uids[k] == u
    {
      sorted, order := Insert(sorted, s[i], f, order, uids[i]);
    }
  }

  // ---- The whole update ----

  method InstantiatedDynamicScreens(doc: LiveDocument) returns (screens: seq<string>)
    ensures forall s :: s in screens <==> s in doc.screenRoots && s in doc.screens && doc.screens[s].dynamicMount
  {
    screens := [];
    var todo := doc.screenRoots.Keys;
    while todo != {}
      invariant todo <= doc.screenRoots.Keys
      invariant forall s :: s in screens <==>
                  s in doc.screenRoots && s !in todo && s in doc.screens && doc.screens[s].dynamicMount
    {
      var s :| s in todo;
      todo := todo - {s};
      if s in doc.screens && doc.screens[s].dynamicMount {
        screens := screens + [s];
      }
    }
  }

  /** The screens a reload builds: the eager ones, and the dynamic ones that had a root and still exist. */
  function Rebuilds(screens: map<string, NodeDef>, f: TreeState, newScreens: map<string, NodeDef>, order: seq<string>)
    : set<string>
    requires forall i :: 0 <= i < |order| ==> order[i] in newScreens
  {
    (set k | 0 <= k < |order| && !newScreens[order[k]].dynamicMount :: order[k])
    + (set s | s in f.screenRoots && s in screens && screens[s].dynamicMount
               && s in newScreens && newScreens[s].dynamicMount)
  }

  lemma RebuildsIsWanted(screens: map<string, NodeDef>, f: TreeState, newScreens: map<string, NodeDef>,
                         order: seq<string>, instantiated: seq<string>)
    requires forall i :: 0 <= i < |order| ==> order[i] in newScreens
    requires forall s :: s in instantiated <==> s in f.screenRoots && s in screens && screens[s].dynamicMount
    ensures Wanted(newScreens, order, instantiated) == Rebuilds(screens, f, newScreens, order)
  {
  }

  /** Every instance that survives is back unless its build or one around it failed. */
  predicate SurvivorsBack(f: TreeState, keys: set<string>, templates: map<string, NodeDef>, uids: seq<Uid>,
                          results: seq<Result<string, ViewError>>, g: TreeState)
    requires |results| == |uids|
  {
    forall u :: u in f.nodes && Survives(f, keys, templates, u) && !FailedAround(f, uids, results, u) ==>
      Recreated(templates, SnapshotOf(f, u), g)
  }

  /** Instances that were siblings and were created again are siblings in the same order. */
  predicate OrderKept(f: TreeState, sorted: seq<Snapshot>, uids: seq<Uid>, results: seq<Result<string, ViewError>>,
                      g: TreeState)
    requires |results| == |uids| == |sorted|
  {
    forall j, k :: 0 <= j < |uids| && 0 <= k < |uids| && results[j].Success? && results[k].Success?
                   && Precedes(f.nodes, uids[j], uids[k]) ==>
      && sorted[j].Path() in g.pathToUid && sorted[k].Path() in g.pathToUid
      && Precedes(g.nodes, g.pathToUid[sorted[j].Path()], g.pathToUid[sorted[k].Path()])
  }

  lemma ReplayedBack(f: TreeState, sorted: seq<Snapshot>, uids: seq<Uid>, keys: set<string>,
                     templates: map<string, NodeDef>, results: seq<Result<string, ViewError>>, g: TreeState)
    requires Indexed(f) && SortOf(f, sorted, uids) && |results| == |uids| && Indexed(g) && Clean(g)
    requires Replayed(keys, templates, sorted, results, |sorted|, g)
    ensures SurvivorsBack(f, keys, templates, uids, results, g) && OrderKept(f, sorted, uids, results, g)
  {
    hide Indexed, Clean, Sorted, Below, Decided, Recreated, PathsBetween, Precedes, FailedAround;
    forall u | u in f.nodes && Survives(f, keys, templates, u) && !FailedAround(f, uids, results, u)
      ensures Recreated(templates, SnapshotOf(f, u), g)
    {
      assert u in uids;
      var k :| 0 <= k < |uids| && uids[k] == u;
      SurvivorCreated(f, sorted, uids, keys, templates, results, k);
    }
    forall j, k | 0 <= j < |uids| && 0 <= k < |uids| && results[j].Success? && results[k].Success?
                  && Precedes(f.nodes, uids[j], uids[k])
      ensures sorted[j].Path() in g.pathToUid && sorted[k].Path() in g.pathToUid
      ensures Precedes(g.nodes, g.pathToUid[sorted[j].Path()], g.pathToUid[sorted[k].Path()])
    {
      assert uids[j] in uids && uids[k] in uids;
      assert Recreated(templates, sorted[j], g) && Recreated(templates, sorted[k], g);
      RecreatedPath(templates, sorted[j], g);
      RecreatedPath(templates, sorted[k], g);
      SiblingsBackInOrder(f, sorted, uids, templates, results, g, j, k);
    }
  }

  lemma AllBack(f: TreeState, keys: set<string>, templates: map<string, NodeDef>, uids: seq<Uid>,
                results: seq<Result<string, ViewError>>, g: TreeState)
    requires |results| == |uids| && SurvivorsBack(f, keys, templates, uids, results, g)
    requires RefusalsIn(results) == 0 && !RanOut(results)
    ensures forall u :: u in f.nodes && Survives(f, keys, templates, u) ==> Recreated(templates, SnapshotOf(f, u), g)
  {
    hide Survives, Recreated, SnapshotOf, RanOut;
    NothingFailed(results);
  }

  lemma RecreatedPath(templates: map<string, NodeDef>, s: Snapshot, g: TreeState)
    requires Recreated(templates, s, g)
    ensures s.Path() in g.pathToUid
  {
  }

  lemma SortedShapes(f: TreeState, sorted: seq<Snapshot>, uids: seq<Uid>)
    requires Indexed(f) && Clean(f) && SortOf(f, sorted, uids)
    ensures forall k :: 0 <= k < |sorted| ==> Shaped(sorted[k])
  {
    hide Indexed, Clean, Shaped, Sorted;
    forall k | 0 <= k < |sorted| ensures Shaped(sorted[k]) {
      CapturedShape(f, uids[k]);
    }
  }

  /**
   * Hot reload: capture and sort the dynamic instances, tear the document down, rebuild it from the new definitions and
   * create the instances again, going on past every one that is refused or fails. With `fixed` the paths of the rebuilt
   * screens, each instance that survives is back below its old parent path unless its build or one around it failed,
   * and those that were siblings keep their order. Every failed build stands for a request the backend refused or for
   * uids that ran out; with neither, and with valid resources, every one is back.
   */
  method Update(doc: LiveDocument, newScreens: map<string, NodeDef>, newTemplates: map<string, NodeDef>,
                order: seq<string>, valid: bool)
    returns (rebuilt: Result<(), ScreenError>, results: seq<Result<string, ViewError>>, sorted: seq<Snapshot>,
             ghost uids: seq<Uid>)
    requires doc.Valid() && DefinitionsFit(newScreens, newTemplates)
    requires forall i :: 0 <= i < |order| ==> order[i] in newScreens
    requires forall i, j :: 0 <= i < j < |order| ==> order[i] != order[j]
    modifies doc, doc.backend
    ensures doc.Valid() && doc.screens == newScreens && doc.templates == newTemplates
    ensures SortOf(old(doc.State()), sorted, uids)
    ensures if rebuilt.Success? then |results| == |sorted| else results == []
    ensures !valid <==> rebuilt.Failure? && rebuilt.error.ResourcesInvalid?
    ensures rebuilt.Success? && old(Clean(doc.State())) && AllSlashFree(newScreens) && AllSlashFree(newTemplates) ==>
      var fixed := StaticPaths(newScreens, Rebuilds(old(doc.screens), old(doc.State()), newScreens, order));
      && Clean(doc.State())
      && Replayed(fixed, newTemplates, sorted, results, |sorted|, doc.State())
      && SurvivorsBack(old(doc.State()), fixed, newTemplates, uids, results, doc.State())
      && OrderKept(old(doc.State()), sorted, uids, results, doc.State())
    ensures doc.backend.refusals == old(doc.backend.refusals) + RefusalsIn(results) + RebuildBlame(rebuilt)
    ensures valid && doc.backend.refusals == old(doc.backend.refusals) && doc.nextUid != 0 ==>
      && rebuilt.Success?
      && (old(Clean(doc.State())) && AllSlashFree(newScreens) && AllSlashFree(newTemplates) ==>
            var fixed := StaticPaths(newScreens, Rebuilds(old(doc.screens), old(doc.State()), newScreens, order));
            forall u :: u in old(doc.nodes) && Survives(old(doc.State()), fixed, newTemplates, u) ==>
              Recreated(newTemplates, SnapshotOf(old(doc.State()), u), doc.State()))
  {
    hide Indexed, RootsOk, Mirrors, Touches, Clean, Replayed, DefinitionsFit, AllSlashFree, Shaped, Survives, Sorted,
      StaticPaths, Rebuilds, Wanted, Captured, SnapshotOf, Built, SurvivorsBack, OrderKept, Partly, RootsListed,
          Rebuilt;
    ghost var f, screens := doc.State(), doc.screens;
    var instantiated := InstantiatedDynamicScreens(doc);
    RebuildsIsWanted(screens, f, newScreens, order, instantiated);
    var snapshots;
    ghost var captured;
    snapshots, captured := CaptureDynamicInstances(doc);
    sorted, uids := SortSnapshots(snapshots, f, captured);
    rebuilt := doc.Rebuild(newScreens, newTemplates, order, instantiated, valid);
    results := [];
    if rebuilt.Success? {
      ghost var g := doc.State();
      if Clean(f) && AllSlashFree(newScreens) {
        SettledIsClean(g);
        RebuiltPaths(g, f.nextUid, newScreens);
        SortedShapes(f, sorted, uids);
      }
      results := Replay(doc, sorted);
      if Clean(f) && AllSlashFree(newScreens) && AllSlashFree(newTemplates) {
        ReplayedBack(f, sorted, uids, g.pathToUid.Keys, newTemplates, results, doc.State());
        if RefusalsIn(results) == 0 && !RanOut(results) {
          AllBack(f, g.pathToUid.Keys, newTemplates, uids, results, doc.State());
        }
      }
    }
  }

  lemma SettledIsClean(f: TreeState)
    requires Settled(f)
    ensures Clean(f)
  {
  }
}
