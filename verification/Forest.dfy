/** The node forest of one loaded document as a value: node map, handle index, path index, screen roots. */
module Forest {
  import opened Text

  type Uid = nat
  type Handle = nat

  /** Node uids are 32 bit; a next uid that wraps to 0 means the space is used up. */
  const MAX_UID: nat := 0xFFFF_FFFF

  /** A parsed view definition, reduced to what decides the shape of the forest. */
  datatype NodeDef = NodeDef(id: string, screen: bool, dynamicMount: bool, children: seq<NodeDef>)

  datatype NodeRecord = NodeRecord(
    definition: NodeDef, path: string, handle: Handle, parent: Uid, children: seq<Uid>, dynamic: bool)
  {
    /** A template instance is named by its path, any other node by its definition. */
    function NodeId(): string {
      if dynamic then AfterLastSlash(path) else definition.id
    }
  }

  datatype TreeState = TreeState(
    nodes: map<Uid, NodeRecord>, handleToUid: map<Handle, Uid>, pathToUid: map<string, Uid>,
    screenRoots: map<string, Uid>, nextUid: nat)

  // ---- Ancestry ----

  /** `v` is `root` or one of its descendants, following `parents` upwards. */
  predicate Below(parents: map<nat, nat>, v: nat, root: nat)
    decreases v
  {
    v in parents && (v == root || (parents[v] < v && Below(parents, parents[v], root)))
  }

  function ParentsOf(nodes: map<Uid, NodeRecord>): (r: map<Uid, Uid>)
    ensures r.Keys == nodes.Keys && forall u :: u in nodes ==> r[u] == nodes[u].parent
  {
    map u | u in nodes :: nodes[u].parent
  }

  predicate Under(nodes: map<Uid, NodeRecord>, v: Uid, root: Uid) {
    Below(ParentsOf(nodes), v, root)
  }

  // ---- What every reachable state satisfies ----

  predicate ParentOk(nodes: map<Uid, NodeRecord>, u: Uid)
    requires u in nodes
  {
    var p := nodes[u].parent;
    p == 0 || (p in nodes && p < u && u in nodes[p].children)
  }

  predicate ChildrenOk(nodes: map<Uid, NodeRecord>, u: Uid)
    requires u in nodes
  {
    var ch := nodes[u].children;
    && (forall i :: 0 <= i < |ch| ==> ch[i] in nodes && nodes[ch[i]].parent == u)
    && (forall i, j :: 0 <= i < j < |ch| ==> ch[i] < ch[j])
  }

  /** Parent and child links are mutual, child lists are increasing, every parent uid is below its child's. */
  predicate LinksOk(nodes: map<Uid, NodeRecord>) {
    forall u {:trigger ParentOk(nodes, u)} {:trigger ChildrenOk(nodes, u)} ::
      u in nodes ==> ParentOk(nodes, u) && ChildrenOk(nodes, u)
  }

  predicate UidsOk(f: TreeState) {
    f.nextUid <= MAX_UID
    && forall u :: u in f.nodes ==> 0 < u <= MAX_UID && (f.nextUid != 0 ==> u < f.nextUid)
  }

  /** The handle index is the exact inverse of the live nodes' handles. */
  predicate HandlesOk(f: TreeState) {
    && (forall u :: u in f.nodes ==>
          f.nodes[u].handle != 0 && f.nodes[u].handle in f.handleToUid && f.handleToUid[f.nodes[u].handle] == u)
    && (forall h :: h in f.handleToUid ==> f.handleToUid[h] in f.nodes && f.nodes[f.handleToUid[h]].handle == h)
  }

  /** No path entry dangles. */
  predicate PathsSound(f: TreeState) {
    forall p :: p in f.pathToUid ==> f.pathToUid[p] in f.nodes && f.nodes[f.pathToUid[p]].path == p
  }

  /** Every live node is found under its path; with PathsSound, the path index is a bijection. */
  predicate PathsComplete(f: TreeState) {
    forall u :: u in f.nodes ==> f.nodes[u].path in f.pathToUid && f.pathToUid[f.nodes[u].path] == u
  }

  function BasePath(nodes: map<Uid, NodeRecord>, parent: Uid): string {
    if parent in nodes then nodes[parent].path else ""
  }

  predicate NameOk(nodes: map<Uid, NodeRecord>, u: Uid)
    requires u in nodes
  {
    nodes[u].NodeId() != "" && nodes[u].path == BasePath(nodes, nodes[u].parent) + "/" + nodes[u].NodeId()
  }

  /** A node's stored path is its parent's path, a slash and its own id. */
  predicate NamesOk(nodes: map<Uid, NodeRecord>) {
    forall u {:trigger NameOk(nodes, u)} :: u in nodes ==> NameOk(nodes, u)
  }

  /** Screen roots name live parentless screen nodes. */
  predicate RootsOk(f: TreeState) {
    forall s :: s in f.screenRoots ==>
      && f.screenRoots[s] in f.nodes
      && f.nodes[f.screenRoots[s]].parent == 0
      && f.nodes[f.screenRoots[s]].definition.screen
      && f.nodes[f.screenRoots[s]].NodeId() == s
  }

  /** Every invariant except the one on screen roots, which a dynamic unmount breaks for one step. */
  predicate Indexed(f: TreeState) {
    LinksOk(f.nodes) && UidsOk(f) && HandlesOk(f) && PathsSound(f) && NamesOk(f.nodes)
  }

  predicate WellFormed(f: TreeState) {
    Indexed(f) && RootsOk(f)
  }

  /** The path index is a bijection and no id hides a slash. */
  predicate Clean(f: TreeState) {
    PathsComplete(f) && forall u :: u in f.nodes ==> NoSlash(f.nodes[u].NodeId())
  }

  // ---- Definitions ----

  predicate IdsNonEmpty(d: NodeDef) {
    d.id != "" && forall i :: 0 <= i < |d.children| ==> IdsNonEmpty(d.children[i])
  }

  predicate SiblingsDistinct(d: NodeDef) {
    && (forall i, j :: 0 <= i < j < |d.children| ==> d.children[i].id != d.children[j].id)
    && forall i :: 0 <= i < |d.children| ==> SiblingsDistinct(d.children[i])
  }

  predicate IdsSlashFree(d: NodeDef) {
    NoSlash(d.id) && forall i :: 0 <= i < |d.children| ==> IdsSlashFree(d.children[i])
  }

  /** No screen node below the root of a definition. */
  predicate NoNestedScreen(d: NodeDef) {
    forall i :: 0 <= i < |d.children| ==> !d.children[i].screen && NoNestedScreen(d.children[i])
  }

  /** The part of document validation the forest relies on. */
  predicate Validated(d: NodeDef) {
    IdsNonEmpty(d) && SiblingsDistinct(d) && NoNestedScreen(d)
  }

  // ---- Adding one node ----

  function NextAfter(uid: nat): nat {
    if uid == MAX_UID then 0 else uid + 1
  }

  function AddNode(f: TreeState, d: NodeDef, path: string, handle: Handle, parent: Uid, dynamic: bool): TreeState
    requires f.nextUid != 0
  {
    var uid := f.nextUid;
    var added := f.nodes[uid := NodeRecord(d, path, handle, parent, [], dynamic)];
    f.(nodes := if parent in f.nodes
                then added[parent := f.nodes[parent].(children := f.nodes[parent].children + [uid])]
                else added,
       handleToUid := f.handleToUid[handle := uid],
       pathToUid := if path in f.pathToUid then f.pathToUid else f.pathToUid[path := uid],
       nextUid := NextAfter(uid))
  }

  /** What create_subtree may rely on when it stores a node. */
  predicate CanAdd(f: TreeState, d: NodeDef, path: string, handle: Handle, parent: Uid, dynamic: bool) {
    && f.nextUid != 0
    && (parent == 0 || parent in f.nodes)
    && handle != 0 && handle !in f.handleToUid
    && var r := NodeRecord(d, path, handle, parent, [], dynamic);
       r.NodeId() != "" && path == BasePath(f.nodes, parent) + "/" + r.NodeId()
  }

  lemma AddNodeLinks(f: TreeState, d: NodeDef, path: string, handle: Handle, parent: Uid, dynamic: bool)
    requires Indexed(f) && CanAdd(f, d, path, handle, parent, dynamic)
    ensures LinksOk(AddNode(f, d, path, handle, parent, dynamic).nodes)
  {
    var nodes := AddNode(f, d, path, handle, parent, dynamic).nodes;
    var uid := f.nextUid;
    assert uid !in f.nodes && 0 !in f.nodes;
    forall u | u in nodes ensures ParentOk(nodes, u) && ChildrenOk(nodes, u) {
      if u == uid {
        if parent != 0 {
          assert nodes[parent].children[|f.nodes[parent].children|] == uid;
        }
      } else {
        assert ParentOk(f.nodes, u) && ChildrenOk(f.nodes, u);
        var p := f.nodes[u].parent;
        if p != 0 {
          assert f.nodes[p].children <= nodes[p].children;
        }
      }
    }
  }

  lemma AddNodeNames(f: TreeState, d: NodeDef, path: string, handle: Handle, parent: Uid, dynamic: bool)
    requires Indexed(f) && CanAdd(f, d, path, handle, parent, dynamic)
    ensures NamesOk(AddNode(f, d, path, handle, parent, dynamic).nodes)
  {
    var nodes := AddNode(f, d, path, handle, parent, dynamic).nodes;
    var uid := f.nextUid;
    assert uid !in f.nodes && 0 !in f.nodes;
    forall u | u in nodes ensures NameOk(nodes, u) {
      if u == uid {
        assert BasePath(nodes, parent) == BasePath(f.nodes, parent);
      } else {
        assert ParentOk(f.nodes, u) && NameOk(f.nodes, u);
        assert nodes[u].path == f.nodes[u].path && nodes[u].NodeId() == f.nodes[u].NodeId();
        assert BasePath(nodes, nodes[u].parent) == BasePath(f.nodes, f.nodes[u].parent);
      }
    }
  }

  lemma AddNodeHandles(f: TreeState, d: NodeDef, path: string, handle: Handle, parent: Uid, dynamic: bool)
    requires Indexed(f) && CanAdd(f, d, path, handle, parent, dynamic)
    ensures UidsOk(AddNode(f, d, path, handle, parent, dynamic))
    ensures HandlesOk(AddNode(f, d, path, handle, parent, dynamic))
  {
    var g := AddNode(f, d, path, handle, parent, dynamic);
    assert f.nextUid !in f.nodes;
    assert forall u :: u in f.nodes ==> g.nodes[u].handle == f.nodes[u].handle;
  }

  lemma AddNodePathsSound(f: TreeState, d: NodeDef, path: string, handle: Handle, parent: Uid, dynamic: bool)
    requires Indexed(f) && CanAdd(f, d, path, handle, parent, dynamic)
    ensures PathsSound(AddNode(f, d, path, handle, parent, dynamic))
  {
    var g := AddNode(f, d, path, handle, parent, dynamic);
    assert f.nextUid !in f.nodes;
    assert forall u :: u in f.nodes ==> g.nodes[u].path == f.nodes[u].path;
  }

  lemma AddNodeRoots(f: TreeState, d: NodeDef, path: string, handle: Handle, parent: Uid, dynamic: bool)
    requires WellFormed(f) && CanAdd(f, d, path, handle, parent, dynamic)
    ensures RootsOk(AddNode(f, d, path, handle, parent, dynamic))
  {
    var g := AddNode(f, d, path, handle, parent, dynamic);
    assert f.nextUid !in f.nodes;
    forall s | s in g.screenRoots
      ensures var r := g.screenRoots[s];
              r in g.nodes && g.nodes[r].parent == 0 && g.nodes[r].definition.screen && g.nodes[r].NodeId() == s
    {
      var r := f.screenRoots[s];
      assert g.nodes[r] == f.nodes[r].(children := g.nodes[r].children);
    }
  }

  lemma AddNodeWellFormed(f: TreeState, d: NodeDef, path: string, handle: Handle, parent: Uid, dynamic: bool)
    requires WellFormed(f) && CanAdd(f, d, path, handle, parent, dynamic)
    ensures WellFormed(AddNode(f, d, path, handle, parent, dynamic))
  {
    AddNodeLinks(f, d, path, handle, parent, dynamic);
    AddNodeNames(f, d, path, handle, parent, dynamic);
    AddNodeHandles(f, d, path, handle, parent, dynamic);
    AddNodePathsSound(f, d, path, handle, parent, dynamic);
    AddNodeRoots(f, d, path, handle, parent, dynamic);
  }

  /** The path index stays a bijection exactly when the new path was free. */
  lemma AddNodePaths(f: TreeState, d: NodeDef, path: string, handle: Handle, parent: Uid, dynamic: bool)
    requires WellFormed(f) && PathsComplete(f) && CanAdd(f, d, path, handle, parent, dynamic)
    ensures PathsComplete(AddNode(f, d, path, handle, parent, dynamic)) <==> path !in f.pathToUid
  {
    var g := AddNode(f, d, path, handle, parent, dynamic);
    var uid := f.nextUid;
    assert uid !in f.nodes && g.nodes[uid].path == path;
    if path !in f.pathToUid {
      forall u | u in g.nodes ensures g.nodes[u].path in g.pathToUid && g.pathToUid[g.nodes[u].path] == u {
        if u != uid {
          assert g.nodes[u].path == f.nodes[u].path;
        }
      }
    }
  }

  // ---- Removing a subtree ----

  function Without(s: seq<Uid>, u: Uid): (r: seq<Uid>)
    ensures forall x :: x in r <==> x in s && x != u
    ensures |r| <= |s|
  {
    if s == [] then [] else (if s[0] == u then [] else [s[0]]) + Without(s[1..], u)
  }

  lemma WithoutIncreasing(s: seq<Uid>, u: Uid)
    requires forall i, j :: 0 <= i < j < |s| ==> s[i] < s[j]
    ensures var r := Without(s, u); forall i, j :: 0 <= i < j < |r| ==> r[i] < r[j]
  {
    if s != [] {
      var t := Without(s[1..], u);
      WithoutIncreasing(s[1..], u);
      forall k | 0 <= k < |t| ensures s[0] < t[k] {
        assert t[k] in s[1..];
      }
    }
  }

  /** The state destroy_subtree promises: every index loses exactly the descendants of `u`. */
  function RemoveSubtree(f: TreeState, u: Uid): TreeState
    requires u in f.nodes
  {
    f.(nodes := map v | v in f.nodes && !Under(f.nodes, v, u) ::
                  if v == f.nodes[u].parent then f.nodes[v].(children := Without(f.nodes[v].children, u))
                  else f.nodes[v],
       handleToUid := map h | h in f.handleToUid && !Under(f.nodes, f.handleToUid[h], u) :: f.handleToUid[h],
       pathToUid := map p | p in f.pathToUid && p !in PathsUnder(f.nodes, u) :: f.pathToUid[p])
  }

  function UnderSet(nodes: map<Uid, NodeRecord>, u: Uid): set<Uid> {
    set v | v in nodes && Under(nodes, v, u)
  }

  function PathsUnder(nodes: map<Uid, NodeRecord>, u: Uid): set<string> {
    set v | v in nodes && Under(nodes, v, u) :: nodes[v].path
  }

  /** The state part-way through destroy_subtree: `u` is detached and the nodes in `done` are erased. */
  function EraseNodes(f: TreeState, u: Uid, done: set<Uid>): TreeState
    requires u in f.nodes
  {
    f.(nodes := map v | v in f.nodes && v !in done ::
                  if v == f.nodes[u].parent then f.nodes[v].(children := Without(f.nodes[v].children, u))
                  else f.nodes[v],
       handleToUid := map h | h in f.handleToUid && f.handleToUid[h] !in done :: f.handleToUid[h],
       pathToUid := map p | p in f.pathToUid && p !in PathsOf(f.nodes, done) :: f.pathToUid[p])
  }

  function PathsOf(nodes: map<Uid, NodeRecord>, done: set<Uid>): set<string> {
    set v | v in done && v in nodes :: nodes[v].path
  }

  lemma EraseNone(f: TreeState, u: Uid)
    requires u in f.nodes
    ensures var p := f.nodes[u].parent;
            EraseNodes(f, u, {}) ==
            f.(nodes := if p in f.nodes
                        then f.nodes[p := f.nodes[p].(children := Without(f.nodes[p].children, u))]
                        else f.nodes)
  {
    assert EraseNodes(f, u, {}).pathToUid == f.pathToUid;
    assert EraseNodes(f, u, {}).handleToUid == f.handleToUid;
  }

  lemma EraseKeys(f: TreeState, u: Uid, done: set<Uid>)
    requires u in f.nodes
    ensures EraseNodes(f, u, done).nodes.Keys == f.nodes.Keys - done
  {
  }

  lemma EraseAllIsRemove(f: TreeState, u: Uid)
    requires Indexed(f) && u in f.nodes
    ensures EraseNodes(f, u, UnderSet(f.nodes, u)) == RemoveSubtree(f, u)
  {
    assert PathsOf(f.nodes, UnderSet(f.nodes, u)) == PathsUnder(f.nodes, u);
  }

  /** Erasing one more node takes exactly its own entry out of each index. */
  lemma EraseStep(f: TreeState, u: Uid, done: set<Uid>, v: Uid)
    requires Indexed(f) && u in f.nodes && v in f.nodes && v !in done
    ensures var a, b := EraseNodes(f, u, done), EraseNodes(f, u, done + {v});
            && v in a.nodes && a.nodes[v].path == f.nodes[v].path && a.nodes[v].handle == f.nodes[v].handle
            && b == a.(nodes := a.nodes - {v}, handleToUid := a.handleToUid - {f.nodes[v].handle},
                       pathToUid := a.pathToUid - {f.nodes[v].path})
  {
    var a, b := EraseNodes(f, u, done), EraseNodes(f, u, done + {v});
    assert b.nodes == a.nodes - {v};
    assert b.handleToUid == a.handleToUid - {f.nodes[v].handle};
    assert PathsOf(f.nodes, done + {v}) == PathsOf(f.nodes, done) + {f.nodes[v].path};
    assert b.pathToUid == a.pathToUid - {f.nodes[v].path};
  }

  /** The descendants of `u` are `u` and the descendants of its children. */
  lemma UnderChildren(f: TreeState, u: Uid, v: Uid)
    requires Indexed(f) && u in f.nodes
    ensures var ch := f.nodes[u].children;
            Under(f.nodes, v, u) <==> v == u || exists k :: 0 <= k < |ch| && Under(f.nodes, v, ch[k])
    decreases v
  {
    var ch := f.nodes[u].children;
    assert ChildrenOk(f.nodes, u);
    if Under(f.nodes, v, u) && v != u {
      var p := f.nodes[v].parent;
      assert ParentOk(f.nodes, v);
      UnderChildren(f, u, p);
      if p == u {
        var k :| 0 <= k < |ch| && ch[k] == v;
        assert Under(f.nodes, v, ch[k]);
      } else {
        var k :| 0 <= k < |ch| && Under(f.nodes, p, ch[k]);
        assert Under(f.nodes, v, ch[k]);
      }
    }
    if k :| 0 <= k < |ch| && Under(f.nodes, v, ch[k]) {
      assert ParentOk(f.nodes, ch[k]);
      assert Under(f.nodes, ch[k], u);
      BelowTrans(ParentsOf(f.nodes), v, ch[k], u);
    }
  }

  lemma BelowIsAtLeast(parents: map<nat, nat>, v: nat, root: nat)
    requires Below(parents, v, root)
    ensures root <= v && root in parents
    decreases v
  {
    if v != root {
      BelowIsAtLeast(parents, parents[v], root);
    }
  }

  lemma RemoveSubtreeLinks(f: TreeState, u: Uid)
    requires Indexed(f) && u in f.nodes
    ensures LinksOk(RemoveSubtree(f, u).nodes)
  {
    var nodes := RemoveSubtree(f, u).nodes;
    var top := f.nodes[u].parent;
    assert ParentOk(f.nodes, u);
    forall v | v in nodes ensures ParentOk(nodes, v) && ChildrenOk(nodes, v) {
      assert ParentOk(f.nodes, v) && ChildrenOk(f.nodes, v);
      var p, ch, kept := f.nodes[v].parent, f.nodes[v].children, nodes[v].children;
      assert p != 0 ==> p in nodes && v in nodes[p].children;
      if v == top {
        WithoutIncreasing(ch, u);
        assert kept == Without(ch, u);
      } else {
        assert kept == ch;
      }
      forall i | 0 <= i < |kept| ensures kept[i] in nodes && nodes[kept[i]].parent == v {
        var c := kept[i];
        assert c in kept && c in ch;
        var k :| 0 <= k < |ch| && ch[k] == c;
        assert f.nodes[ch[k]].parent == v;
        assert c != u;
      }
    }
  }

  lemma RemoveSubtreeNames(f: TreeState, u: Uid)
    requires Indexed(f) && u in f.nodes
    ensures NamesOk(RemoveSubtree(f, u).nodes)
  {
    var nodes := RemoveSubtree(f, u).nodes;
    forall v | v in nodes ensures NameOk(nodes, v) {
      assert ParentOk(f.nodes, v) && NameOk(f.nodes, v);
      var p := f.nodes[v].parent;
      assert 0 !in f.nodes;
      assert p != 0 ==> p in nodes && nodes[p].path == f.nodes[p].path;
      assert nodes[v].path == f.nodes[v].path && nodes[v].NodeId() == f.nodes[v].NodeId();
      assert BasePath(nodes, nodes[v].parent) == BasePath(f.nodes, p);
    }
  }

  lemma RemoveSubtreeIndices(f: TreeState, u: Uid)
    requires Indexed(f) && u in f.nodes
    ensures var g := RemoveSubtree(f, u); UidsOk(g) && HandlesOk(g) && PathsSound(g)
  {
    var g := RemoveSubtree(f, u);
    assert forall v :: v in g.nodes ==>
      g.nodes[v].path == f.nodes[v].path && g.nodes[v].handle == f.nodes[v].handle;
    forall p | p in g.pathToUid ensures g.pathToUid[p] in g.nodes {
      assert f.nodes[f.pathToUid[p]].path == p;
    }
  }

  lemma RemoveSubtreeIndexed(f: TreeState, u: Uid)
    requires Indexed(f) && u in f.nodes
    ensures Indexed(RemoveSubtree(f, u))
  {
    RemoveSubtreeLinks(f, u);
    RemoveSubtreeNames(f, u);
    RemoveSubtreeIndices(f, u);
  }

  /** Screen roots survive as long as none of them is the removed node itself. */
  lemma RemoveSubtreeRoots(f: TreeState, u: Uid)
    requires WellFormed(f) && u in f.nodes
    ensures RootsOk(RemoveSubtree(f, u)) <==> forall s :: s in f.screenRoots ==> f.screenRoots[s] != u
  {
    var g := RemoveSubtree(f, u);
    assert 0 !in f.nodes;
    assert Under(f.nodes, u, u);
    if forall s :: s in f.screenRoots ==> f.screenRoots[s] != u {
      forall s | s in g.screenRoots
        ensures var r := g.screenRoots[s];
                r in g.nodes && g.nodes[r].parent == 0 && g.nodes[r].definition.screen && g.nodes[r].NodeId() == s
      {
        var r := f.screenRoots[s];
        assert !Below(ParentsOf(f.nodes), 0, u);
        assert g.nodes[r] == f.nodes[r].(children := g.nodes[r].children);
      }
    }
  }

  lemma RemoveSubtreePaths(f: TreeState, u: Uid)
    requires PathsComplete(f) && u in f.nodes
    ensures PathsComplete(RemoveSubtree(f, u))
  {
    var g := RemoveSubtree(f, u);
    forall v | v in g.nodes ensures g.nodes[v].path in g.pathToUid && g.pathToUid[g.nodes[v].path] == v {
      assert g.nodes[v].path == f.nodes[v].path;
      assert forall w :: w in f.nodes && f.nodes[w].path == f.nodes[v].path ==> w == v;
    }
  }

  // ---- Growth: what building a subtree may change ----

  /** `g` extends `f` by nodes hanging below the uid that was next in `f`, itself a child of `parent`. */
  predicate Grown(f: TreeState, g: TreeState, parent: Uid) {
    && g.screenRoots == f.screenRoots
    && (forall u :: u in f.nodes && u != parent ==> u in g.nodes && g.nodes[u] == f.nodes[u])
    && (parent in f.nodes ==>
          && parent in g.nodes
          && g.nodes[parent] == f.nodes[parent].(children := g.nodes[parent].children)
          && g.nodes[parent].children == f.nodes[parent].children + if f.nextUid in g.nodes then [f.nextUid] else [])
    && (forall u :: u in g.nodes && u !in f.nodes ==>
          f.nextUid != 0 && f.nextUid <= u && Under(g.nodes, u, f.nextUid))
    && (forall p :: p in f.pathToUid ==> p in g.pathToUid && g.pathToUid[p] == f.pathToUid[p])
    && (g.nextUid != 0 ==> f.nextUid != 0 && f.nextUid <= g.nextUid)
  }

  /** Ancestry among the old nodes does not change when nodes keep their parents. */
  lemma UnderStable(f: map<Uid, NodeRecord>, g: map<Uid, NodeRecord>, v: Uid, root: Uid)
    requires forall u :: u in f ==> u in g && g[u].parent == f[u].parent
    requires Under(f, v, root)
    ensures Under(g, v, root)
    decreases v
  {
    if v != root {
      UnderStable(f, g, f[v].parent, root);
    }
  }

  lemma UnderStableBack(f: map<Uid, NodeRecord>, g: map<Uid, NodeRecord>, v: Uid, root: Uid)
    requires LinksOk(f) && 0 !in g
    requires forall u :: u in f ==> u in g && g[u].parent == f[u].parent
    requires v in f && Under(g, v, root)
    ensures Under(f, v, root)
    decreases v
  {
    assert ParentOk(f, v);
    if v != root {
      assert Below(ParentsOf(g), g[v].parent, root);
      UnderStableBack(f, g, f[v].parent, root);
    }
  }

  /** `g` extends `f` by nodes below the live node `u`, whose own record changes in its child list only. */
  predicate ExtendedBelow(f: TreeState, g: TreeState, u: Uid) {
    && g.screenRoots == f.screenRoots
    && u in f.nodes && u in g.nodes && g.nodes[u] == f.nodes[u].(children := g.nodes[u].children)
    && (forall v :: v in f.nodes && v != u ==> v in g.nodes && g.nodes[v] == f.nodes[v])
    && (forall v :: v in g.nodes && v !in f.nodes ==> f.nextUid != 0 && f.nextUid <= v && Under(g.nodes, v, u))
    && (forall p :: p in f.pathToUid ==> p in g.pathToUid && g.pathToUid[p] == f.pathToUid[p])
    && (g.nextUid != 0 ==> f.nextUid != 0 && f.nextUid <= g.nextUid)
  }

  lemma ExtendedByChild(f: TreeState, f1: TreeState, f2: TreeState, u: Uid, d: NodeDef, path: string)
    requires Indexed(f) && Indexed(f1) && Indexed(f2)
    requires ExtendedBelow(f, f1, u) && BuildOutcome(f1, f2, d, path, u)
    ensures ExtendedBelow(f, f2, u)
    ensures Clean(f1) && IdsSlashFree(d) && path !in f1.pathToUid ==> Clean(f2)
  {
    hide HandlesOk, NamesOk, PathsSound, PathsComplete, NewPathsIn, Clean, IdsSlashFree;
    forall v | v in f2.nodes && v !in f.nodes ensures f.nextUid <= v && Under(f2.nodes, v, u) {
      if v in f1.nodes {
        UnderStable(f1.nodes, f2.nodes, v, u);
      } else {
        GrownUnder(f1, f2, u, v);
      }
    }
  }

  /** Building below a freshly added node, seen from before that node was added. */
  lemma GrownThrough(f: TreeState, f1: TreeState, f2: TreeState, parent: Uid)
    requires Indexed(f) && f.nextUid != 0 && Grown(f, f1, parent)
    requires parent != f.nextUid && ExtendedBelow(f1, f2, f.nextUid)
    ensures Grown(f, f2, parent)
  {
    var uid := f.nextUid;
    assert uid !in f.nodes;
    forall u | u in f2.nodes && u !in f.nodes ensures uid <= u && Under(f2.nodes, u, uid) {
      if u in f1.nodes {
        UnderStable(f1.nodes, f2.nodes, u, uid);
      }
    }
  }

  /** Everything added below `parent` ends up under `parent`. */
  lemma GrownUnder(f: TreeState, g: TreeState, parent: Uid, u: Uid)
    requires Indexed(f) && Indexed(g) && Grown(f, g, parent)
    requires parent in f.nodes && u in g.nodes && u !in f.nodes
    ensures parent < u && Under(g.nodes, u, parent)
  {
    var first := f.nextUid;
    BelowIsAtLeast(ParentsOf(g.nodes), u, first);
    assert g.nodes[parent].children[|f.nodes[parent].children|] == first;
    assert ChildrenOk(g.nodes, parent);
    BelowTrans(ParentsOf(g.nodes), u, first, parent);
  }

  lemma BelowTrans(parents: map<nat, nat>, v: nat, mid: nat, root: nat)
    requires Below(parents, v, mid) && Below(parents, mid, root)
    ensures Below(parents, v, root)
    decreases v
  {
    if v != mid {
      BelowTrans(parents, parents[v], mid, root);
      BelowIsAtLeast(parents, mid, root);
      BelowIsAtLeast(parents, parents[v], mid);
    }
  }

  /** Adding one node is growth. */
  lemma AddNodeGrown(f: TreeState, d: NodeDef, path: string, handle: Handle, parent: Uid, dynamic: bool)
    requires Indexed(f) && CanAdd(f, d, path, handle, parent, dynamic)
    ensures Grown(f, AddNode(f, d, path, handle, parent, dynamic), parent)
  {
    assert f.nextUid !in f.nodes && 0 !in f.nodes;
  }

  // ---- What a finished build looks like ----

  /** `u` is the root of a complete instance of `d` at `path`, hanging from `parent`. */
  predicate Built(nodes: map<Uid, NodeRecord>, u: Uid, d: NodeDef, path: string, parent: Uid, dynamic: bool)
    decreases d
  {
    && u in nodes
    && nodes[u] == NodeRecord(d, path, nodes[u].handle, parent, nodes[u].children, dynamic)
    && BuiltChildren(nodes, u, d, path, |d.children|)
    && |nodes[u].children| == |d.children|
  }

  /** The first `n` children of `u` are complete instances of the first `n` child definitions, in order. */
  predicate BuiltChildren(nodes: map<Uid, NodeRecord>, u: Uid, d: NodeDef, path: string, n: nat)
    decreases d, 0
  {
    && u in nodes && n <= |d.children| && n <= |nodes[u].children|
    && forall i :: 0 <= i < n ==>
         Built(nodes, nodes[u].children[i], d.children[i], path + "/" + d.children[i].id, u, false)
  }

  /** A finished instance stays finished as long as no node at or above its root's uid changes. */
  lemma BuiltStable(f: map<Uid, NodeRecord>, g: map<Uid, NodeRecord>, u: Uid, d: NodeDef, path: string, parent: Uid,
                    dynamic: bool)
    requires LinksOk(f)
    requires forall v :: v in f && u <= v ==> v in g && g[v] == f[v]
    requires Built(f, u, d, path, parent, dynamic)
    ensures Built(g, u, d, path, parent, dynamic)
    decreases d
  {
    assert ChildrenOk(f, u);
    forall i | 0 <= i < |d.children|
      ensures Built(g, g[u].children[i], d.children[i], path + "/" + d.children[i].id, u, false)
    {
      var c := f[u].children[i];
      assert ParentOk(f, c);
      BuiltStable(f, g, c, d.children[i], path + "/" + d.children[i].id, u, false);
    }
  }

  /** `p` is one of the paths an instance of `d` at `path` occupies. */
  predicate PathIn(d: NodeDef, path: string, p: string)
    decreases d
  {
    p == path || exists i :: 0 <= i < |d.children| && PathIn(d.children[i], path + "/" + d.children[i].id, p)
  }

  /** Every node `g` has more than `f` sits on a path of `d` at `path`, and that path is in the index. */
  predicate NewPathsIn(f: TreeState, g: TreeState, d: NodeDef, path: string) {
    forall u :: u in g.nodes && u !in f.nodes ==> PathIn(d, path, g.nodes[u].path) && g.nodes[u].path in g.pathToUid
  }

  lemma NewPathsByChild(f0: TreeState, f: TreeState, g: TreeState, d: NodeDef, path: string, parent: Uid, i: nat)
    requires i < |d.children| && NewPathsIn(f0, f, d, path)
    requires BuildOutcome(f, g, d.children[i], path + "/" + d.children[i].id, parent)
    ensures NewPathsIn(f0, g, d, path)
  {
    hide Below, Clean, PathsComplete, IdsSlashFree;
    var child, childPath := d.children[i], path + "/" + d.children[i].id;
    forall u | u in g.nodes && u !in f0.nodes
      ensures PathIn(d, path, g.nodes[u].path) && g.nodes[u].path in g.pathToUid
    {
      if u in f.nodes {
        assert g.nodes[u].path == f.nodes[u].path;
      } else {
        assert PathIn(child, childPath, g.nodes[u].path);
      }
    }
  }

  /** How building `d` at `path` below `parent` may leave the forest, whether or not it got to the end. */
  predicate BuildOutcome(f: TreeState, g: TreeState, d: NodeDef, path: string, parent: Uid) {
    && Grown(f, g, parent)
    && (f.nextUid in g.nodes ==> g.nodes[f.nextUid].path == path && g.nodes[f.nextUid].parent == parent)
    && (f.nextUid in g.nodes && path !in f.pathToUid ==> path in g.pathToUid && g.pathToUid[path] == f.nextUid)
    && (f.nextUid in g.nodes && path in f.pathToUid ==> !PathsComplete(g))
    && (f.nextUid !in g.nodes ==> g == f)
    && (Clean(f) && IdsSlashFree(d) && path !in f.pathToUid ==> Clean(g))
    && NewPathsIn(f, g, d, path)
  }

  lemma NoBuildOutcome(f: TreeState, d: NodeDef, path: string, parent: Uid)
    requires Indexed(f)
    ensures BuildOutcome(f, f, d, path, parent)
  {
    assert f.nextUid !in f.nodes;
  }

  /** One stored node plus whatever its children added is an outcome of the whole build. */
  lemma StoredOutcome(f: TreeState, f1: TreeState, g: TreeState, d: NodeDef, path: string, handle: Handle, parent: Uid,
                      dynamic: bool)
    requires WellFormed(f) && CanAdd(f, d, path, handle, parent, dynamic)
    requires f1 == AddNode(f, d, path, handle, parent, dynamic)
    requires ExtendedBelow(f1, g, f.nextUid)
    requires Clean(f1) && IdsSlashFree(d) ==> Clean(g)
    requires NewPathsIn(f1, g, d, path)
    ensures BuildOutcome(f, g, d, path, parent)
  {
    hide HandlesOk, NamesOk, RootsOk, LinksOk, NewPathsIn;
    AddNodeGrown(f, d, path, handle, parent, dynamic);
    assert parent != f.nextUid by {
      assert f.nextUid !in f.nodes;
    }
    GrownThrough(f, f1, g, parent);
    assert path in f1.pathToUid && path in g.pathToUid && g.pathToUid[path] == f1.pathToUid[path];
    assert path in f.pathToUid ==> g.pathToUid[path] != f.nextUid;
    StoredPaths(f, f1, g, d, path, handle, parent, dynamic);
    if Clean(f) && IdsSlashFree(d) && path !in f.pathToUid {
      CleanAfterAdd(f, d, path, handle, parent, dynamic);
    }
  }

  lemma StoredPaths(f: TreeState, f1: TreeState, g: TreeState, d: NodeDef, path: string, handle: Handle, parent: Uid,
                    dynamic: bool)
    requires f.nextUid != 0 && f1 == AddNode(f, d, path, handle, parent, dynamic)
    requires ExtendedBelow(f1, g, f.nextUid) && NewPathsIn(f1, g, d, path) && parent != f.nextUid
    ensures NewPathsIn(f, g, d, path)
  {
    assert PathIn(d, path, path);
    hide PathIn, Below;
  }

  lemma CleanAfterAdd(f: TreeState, d: NodeDef, path: string, handle: Handle, parent: Uid, dynamic: bool)
    requires WellFormed(f) && Clean(f) && CanAdd(f, d, path, handle, parent, dynamic) && path !in f.pathToUid
    requires NoSlash(d.id)
    ensures Clean(AddNode(f, d, path, handle, parent, dynamic))
  {
    AddNodePaths(f, d, path, handle, parent, dynamic);
    var g := AddNode(f, d, path, handle, parent, dynamic);
    assert f.nextUid !in f.nodes;
    assert forall u :: u in f.nodes ==> g.nodes[u].NodeId() == f.nodes[u].NodeId();
  }

  /** A stored node whose children were all built is a finished instance. */
  lemma StoredBuilt(f1: TreeState, g: TreeState, u: Uid, d: NodeDef, path: string, handle: Handle, parent: Uid,
                    dynamic: bool)
    requires ExtendedBelow(f1, g, u) && f1.nodes[u] == NodeRecord(d, path, handle, parent, [], dynamic)
    requires BuiltChildren(g.nodes, u, d, path, |d.children|) && |g.nodes[u].children| == |d.children|
    ensures Built(g.nodes, u, d, path, parent, dynamic)
  {
  }

  // ---- Why distinct siblings give distinct paths ----

  /** Under a clean index, a child path is free as soon as no existing child carries that id. */
  lemma ChildPathFree(f: TreeState, u: Uid, id: string)
    requires Indexed(f) && Clean(f) && u in f.nodes && NoSlash(id)
    requires forall i :: 0 <= i < |f.nodes[u].children| ==>
               f.nodes[u].children[i] in f.nodes && f.nodes[f.nodes[u].children[i]].NodeId() != id
    ensures f.nodes[u].path + "/" + id !in f.pathToUid
  {
    var path := f.nodes[u].path + "/" + id;
    if path in f.pathToUid {
      var w := f.pathToUid[path];
      assert NameOk(f.nodes, w) && NameOk(f.nodes, u) && ParentOk(f.nodes, w);
      var p := f.nodes[w].parent;
      LastSegmentUnique(f.nodes[u].path, id, BasePath(f.nodes, p), f.nodes[w].NodeId());
    }
  }

  // ---- Where the path index stops being a bijection ----

  /** Rebuilding a screen whose failed first build left an orphaned root hides the second root from the index. */
  lemma RetriedScreenBuild(d: NodeDef)
    requires Validated(d) && IdsSlashFree(d)
    ensures var f := AddNode(TreeState(map[], map[], map[], map[], 1), d, "/" + d.id, 1, 0, false);
            var g := AddNode(f, d, "/" + d.id, 2, 0, false);
            WellFormed(f) && Clean(f) && WellFormed(g) && !PathsComplete(g)
  {
    var empty := TreeState(map[], map[], map[], map[], 1);
    assert "" + "/" + d.id == "/" + d.id;
    AddNodeWellFormed(empty, d, "/" + d.id, 1, 0, false);
    CleanAfterAdd(empty, d, "/" + d.id, 1, 0, false);
    var f := AddNode(empty, d, "/" + d.id, 1, 0, false);
    AddNodeWellFormed(f, d, "/" + d.id, 2, 0, false);
    AddNodePaths(f, d, "/" + d.id, 2, 0, false);
  }

  /** An id with a slash passes validation and collides with a nested path: "a/b" beside "a" holding "b". */
  lemma SlashInIdCollides()
    ensures var leaf := NodeDef("b", false, false, []);
            var d := NodeDef("s", true, false, [NodeDef("a/b", false, false, []), NodeDef("a", false, false, [leaf])]);
            && Validated(d) && !IdsSlashFree(d)
            && forall f: TreeState, u: Uid ::
                 LinksOk(f.nodes) && Built(f.nodes, u, d, "/s", 0, false) ==> !PathsComplete(f)
  {
    var leaf := NodeDef("b", false, false, []);
    var first, second := NodeDef("a/b", false, false, []), NodeDef("a", false, false, [leaf]);
    var d := NodeDef("s", true, false, [first, second]);
    assert IdsNonEmpty(leaf) && SiblingsDistinct(leaf) && NoNestedScreen(leaf);
    assert IdsNonEmpty(first) && SiblingsDistinct(first) && NoNestedScreen(first);
    forall i | 0 <= i < |second.children|
      ensures IdsNonEmpty(second.children[i]) && SiblingsDistinct(second.children[i])
      ensures !second.children[i].screen && NoNestedScreen(second.children[i])
    {
      assert second.children[i] == leaf;
    }
    assert first.id[1] == '/';
    assert !IdsSlashFree(d) by {
      assert !IdsSlashFree(d.children[0]);
    }
    forall f: TreeState, u: Uid | LinksOk(f.nodes) && Built(f.nodes, u, d, "/s", 0, false) ensures !PathsComplete(f) {
      var c0, c1 := f.nodes[u].children[0], f.nodes[u].children[1];
      assert BuiltChildren(f.nodes, u, d, "/s", 2);
      assert Built(f.nodes, c0, d.children[0], "/s" + "/" + d.children[0].id, u, false);
      assert Built(f.nodes, c1, d.children[1], "/s" + "/" + d.children[1].id, u, false);
      assert BuiltChildren(f.nodes, c1, second, "/s" + "/" + "a", 1);
      var c2 := f.nodes[c1].children[0];
      assert Built(f.nodes, c2, second.children[0], "/s" + "/" + "a" + "/" + second.children[0].id, c1, false);
      assert "/s" + "/" + "a/b" == "/s" + "/" + "a" + "/" + "b";
      assert f.nodes[c0].parent == u && f.nodes[c2].parent == c1;
      assert ChildrenOk(f.nodes, u) && ParentOk(f.nodes, c1);
    }
  }

  // ---- Walking up from a node ----

  /** Ids on the way from the root, exclusive, down to `u`. */
  function RelativePath(nodes: map<Uid, NodeRecord>, u: Uid): seq<string>
    decreases u
  {
    if u in nodes && nodes[u].parent != 0 && nodes[u].parent < u
    then RelativePath(nodes, nodes[u].parent) + [nodes[u].NodeId()]
    else []
  }

  function RootOf(nodes: map<Uid, NodeRecord>, u: Uid): Uid
    decreases u
  {
    if u in nodes && nodes[u].parent != 0 && nodes[u].parent < u then RootOf(nodes, nodes[u].parent) else u
  }

  /** The ids collected on the walk up rebuild the stored path. */
  lemma RelativePathRenders(nodes: map<Uid, NodeRecord>, u: Uid)
    requires LinksOk(nodes) && NamesOk(nodes) && 0 !in nodes && u in nodes
    ensures var r := RootOf(nodes, u);
            && r in nodes && nodes[r].parent == 0 && Under(nodes, u, r)
            && AllNonEmpty(RelativePath(nodes, u))
            && AbsoluteNodePath(nodes[r].NodeId(), RelativePath(nodes, u)) == nodes[u].path
    decreases u
  {
    hide AbsoluteNodePath, JoinSlash, AfterLastSlash;
    assert ParentOk(nodes, u) && NameOk(nodes, u);
    if nodes[u].parent != 0 {
      var p := nodes[u].parent;
      RelativePathRenders(nodes, p);
      AbsoluteNodePathAppend(nodes[RootOf(nodes, p)].NodeId(), RelativePath(nodes, p), nodes[u].NodeId());
    } else {
      AbsoluteNodePathOfRoot(nodes[u].NodeId());
      assert "" + "/" + nodes[u].NodeId() == "/" + nodes[u].NodeId();
    }
  }

  // ---- Emptying the forest root by root ----

  predicate UnderAny(nodes: map<Uid, NodeRecord>, v: Uid, roots: seq<Uid>) {
    exists k :: 0 <= k < |roots| && Under(nodes, v, roots[k])
  }

  function DropRoots(nodes: map<Uid, NodeRecord>, roots: seq<Uid>): map<Uid, NodeRecord> {
    map v | v in nodes && !UnderAny(nodes, v, roots) :: nodes[v]
  }

  /** Removing one more root leaves the nodes under none of the roots removed so far, links untouched. */
  lemma DropRootsStep(f0: map<Uid, NodeRecord>, f: TreeState, roots: seq<Uid>, i: nat)
    requires LinksOk(f0) && 0 !in f0 && Indexed(f) && i < |roots|
    requires f.nodes == DropRoots(f0, roots[..i])
    requires roots[i] in f.nodes && f0[roots[i]].parent == 0
    ensures RemoveSubtree(f, roots[i]).nodes == DropRoots(f0, roots[..i + 1])
  {
    var r := roots[i];
    assert roots[..i + 1] == roots[..i] + [r];
    forall v | v in f.nodes ensures Under(f.nodes, v, r) <==> Under(f0, v, r) {
      if Under(f.nodes, v, r) {
        UnderStable(f.nodes, f0, v, r);
      }
      if Under(f0, v, r) {
        UnderStableBack(f.nodes, f0, v, r);
      }
    }
    var after := roots[..i + 1];
    forall v | v in f0 ensures UnderAny(f0, v, after) <==> UnderAny(f0, v, roots[..i]) || Under(f0, v, r) {
      if UnderAny(f0, v, roots[..i]) {
        var k :| 0 <= k < i && Under(f0, v, roots[..i][k]);
        assert Under(f0, v, after[k]);
      }
      if Under(f0, v, r) {
        assert Under(f0, v, after[i]);
      }
    }
    assert 0 !in f.nodes;
  }

  /** A root is under another root only when they are the same node. */
  lemma RootsIndependent(nodes: map<Uid, NodeRecord>, roots: seq<Uid>, i: nat)
    requires 0 !in nodes && i < |roots|
    requires forall u :: u in roots ==> u in nodes && nodes[u].parent == 0
    requires forall i, j :: 0 <= i < j < |roots| ==> roots[i] != roots[j]
    ensures roots[i] in DropRoots(nodes, roots[..i])
  {
    assert forall k :: 0 <= k < i ==> !Under(nodes, roots[i], roots[..i][k]) by {
      forall k | 0 <= k < i ensures !Under(nodes, roots[i], roots[..i][k]) {
        assert !Below(ParentsOf(nodes), 0, roots[k]);
      }
    }
  }

  /** Once every root is gone nothing is left. */
  lemma DropAllRoots(nodes: map<Uid, NodeRecord>, roots: seq<Uid>)
    requires LinksOk(nodes) && NamesOk(nodes) && 0 !in nodes
    requires forall u :: u in nodes && nodes[u].parent == 0 ==> u in roots
    ensures DropRoots(nodes, roots) == map[]
  {
    forall v | v in nodes ensures UnderAny(nodes, v, roots) {
      RelativePathRenders(nodes, v);
      var k :| 0 <= k < |roots| && roots[k] == RootOf(nodes, v);
      assert Under(nodes, v, roots[k]);
    }
  }

  // ---- Undoing a build ----

  lemma GrowthIsBelow(f: TreeState, g: TreeState, parent: Uid)
    requires WellFormed(f) && WellFormed(g) && Grown(f, g, parent) && f.nextUid != 0
    ensures forall v :: v in g.nodes ==> (Under(g.nodes, v, f.nextUid) <==> v !in f.nodes)
  {
    forall v | v in f.nodes ensures !Under(g.nodes, v, f.nextUid) {
      if Under(g.nodes, v, f.nextUid) {
        BelowIsAtLeast(ParentsOf(g.nodes), v, f.nextUid);
      }
    }
  }

  lemma RemoveUndoesGrowthNodes(f: TreeState, g: TreeState, parent: Uid)
    requires WellFormed(f) && WellFormed(g) && Grown(f, g, parent) && f.nextUid in g.nodes
    requires f.nextUid != 0 && (parent == 0 || parent in f.nodes) && g.nodes[f.nextUid].parent == parent
    ensures RemoveSubtree(g, f.nextUid).nodes == f.nodes
  {
    hide HandlesOk, PathsSound, NamesOk, RootsOk, Below;
    var u := f.nextUid;
    var r := RemoveSubtree(g, u).nodes;
    GrowthIsBelow(f, g, parent);
    assert r.Keys == f.nodes.Keys;
    if parent in f.nodes {
      assert ChildrenOk(f.nodes, parent);
      assert u !in f.nodes[parent].children;
      WithoutLast(f.nodes[parent].children, u);
      assert g.nodes[parent].children == f.nodes[parent].children + [u];
      assert r[parent] == g.nodes[parent].(children := Without(g.nodes[parent].children, u));
      assert r[parent] == f.nodes[parent];
    }
    assert forall v :: v in f.nodes && v != parent ==> r[v] == f.nodes[v];
  }

  lemma RemoveUndoesGrowthHandles(f: TreeState, g: TreeState, parent: Uid)
    requires WellFormed(f) && WellFormed(g) && Grown(f, g, parent) && f.nextUid in g.nodes && f.nextUid != 0
    ensures RemoveSubtree(g, f.nextUid).handleToUid == f.handleToUid
  {
    var r := RemoveSubtree(g, f.nextUid).handleToUid;
    GrowthIsBelow(f, g, parent);
    assert forall v :: v in f.nodes ==> v in g.nodes && g.nodes[v].handle == f.nodes[v].handle;
    forall h ensures h in r <==> h in f.handleToUid {
      if h in f.handleToUid {
        assert f.nodes[f.handleToUid[h]].handle == h;
      }
      if h in r {
        assert g.nodes[g.handleToUid[h]].handle == h;
      }
    }
  }

  /** Destroying what a build added gives back the nodes, the handle index and, under a clean index, the paths. */
  lemma RemoveUndoesGrowth(f: TreeState, g: TreeState, parent: Uid)
    requires WellFormed(f) && WellFormed(g) && Grown(f, g, parent) && f.nextUid in g.nodes
    requires f.nextUid != 0 && (parent == 0 || parent in f.nodes) && g.nodes[f.nextUid].parent == parent
    requires PathsComplete(f) && PathsComplete(g)
    ensures RemoveSubtree(g, f.nextUid) == f.(nextUid := g.nextUid)
  {
    hide HandlesOk, LinksOk, NamesOk, RootsOk, Below;
    var u := f.nextUid;
    var r := RemoveSubtree(g, u);
    GrowthIsBelow(f, g, parent);
    RemoveUndoesGrowthNodes(f, g, parent);
    RemoveUndoesGrowthHandles(f, g, parent);
    forall p ensures p in r.pathToUid <==> p in f.pathToUid {
      if p in r.pathToUid {
        assert g.nodes[g.pathToUid[p]].path == p;
      }
      if p in f.pathToUid {
        var w := f.pathToUid[p];
        assert forall x :: x in g.nodes && g.nodes[x].path == p ==> x == w;
      }
    }
  }

  lemma WithoutLast(s: seq<Uid>, u: Uid)
    requires u !in s
    ensures Without(s + [u], u) == s
  {
    if s != [] {
      assert (s + [u])[1..] == s[1..] + [u];
      WithoutLast(s[1..], u);
    }
  }
}
