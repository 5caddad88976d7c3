/** When the path index of a finished build is a bijection. */
module PathIndex {
  import opened Text
  import opened Forest

  // ---- The nodes of an instance and their paths, in preorder ----

  function Rendered(d: NodeDef, path: string): seq<string>
    decreases d, 1, 0
  {
    [path] + RenderedChildren(d, path, |d.children|)
  }

  function RenderedChildren(d: NodeDef, path: string, n: nat): seq<string>
    requires n <= |d.children|
    decreases d, 0, n
  {
    if n == 0 then []
    else RenderedChildren(d, path, n - 1) + Rendered(d.children[n - 1], path + "/" + d.children[n - 1].id)
  }

  function Members(nodes: map<Uid, NodeRecord>, u: Uid, d: NodeDef, path: string, parent: Uid, dynamic: bool): seq<Uid>
    requires Built(nodes, u, d, path, parent, dynamic)
    decreases d, 1, 0
  {
    [u] + MembersBelow(nodes, u, d, path, |d.children|)
  }

  function MembersBelow(nodes: map<Uid, NodeRecord>, u: Uid, d: NodeDef, path: string, n: nat): seq<Uid>
    requires n <= |d.children| && BuiltChildren(nodes, u, d, path, n)
    decreases d, 0, n
  {
    if n == 0 then []
    else MembersBelow(nodes, u, d, path, n - 1)
         + Members(nodes, nodes[u].children[n - 1], d.children[n - 1], path + "/" + d.children[n - 1].id, u, false)
  }

  lemma {:induction false} RenderedIsPathIn(d: NodeDef, path: string, p: string)
    ensures p in Rendered(d, path) <==> PathIn(d, path, p)
    decreases d, 1, 0
  {
    RenderedChildrenIn(d, path, |d.children|, p);
  }

  lemma {:induction false} RenderedChildrenIn(d: NodeDef, path: string, n: nat, p: string)
    requires n <= |d.children|
    ensures p in RenderedChildren(d, path, n) <==>
            exists i :: 0 <= i < n && PathIn(d.children[i], path + "/" + d.children[i].id, p)
    decreases d, 0, n
  {
    if n > 0 {
      RenderedChildrenIn(d, path, n - 1, p);
      RenderedIsPathIn(d.children[n - 1], path + "/" + d.children[n - 1].id, p);
    }
  }

  predicate NoRepeat<T(==)>(s: seq<T>) {
    forall i, j :: 0 <= i < j < |s| ==> s[i] != s[j]
  }

  predicate PathsAre(nodes: map<Uid, NodeRecord>, members: seq<Uid>, paths: seq<string>) {
    |members| == |paths| && forall i :: 0 <= i < |members| ==> members[i] in nodes && nodes[members[i]].path == paths[i]
  }

  lemma {:induction false} MembersRender(nodes: map<Uid, NodeRecord>, u: Uid, d: NodeDef, path: string, parent: Uid,
                                         dynamic: bool)
    requires Built(nodes, u, d, path, parent, dynamic)
    ensures PathsAre(nodes, Members(nodes, u, d, path, parent, dynamic), Rendered(d, path))
    decreases d, 1, 0
  {
    MembersBelowRender(nodes, u, d, path, |d.children|);
  }

  lemma {:induction false} MembersBelowRender(nodes: map<Uid, NodeRecord>, u: Uid, d: NodeDef, path: string, n: nat)
    requires n <= |d.children| && BuiltChildren(nodes, u, d, path, n)
    ensures PathsAre(nodes, MembersBelow(nodes, u, d, path, n), RenderedChildren(d, path, n))
    decreases d, 0, n
  {
    if n > 0 {
      MembersBelowRender(nodes, u, d, path, n - 1);
      MembersRender(nodes, nodes[u].children[n - 1], d.children[n - 1], path + "/" + d.children[n - 1].id, u, false);
    }
  }

  /** The members are exactly the nodes under the root of the instance, each once. */
  lemma {:induction false} MembersExactly(f: TreeState, u: Uid, d: NodeDef, path: string, parent: Uid, dynamic: bool)
    requires Indexed(f) && Built(f.nodes, u, d, path, parent, dynamic)
    ensures var m := Members(f.nodes, u, d, path, parent, dynamic);
            NoRepeat(m) && forall v :: v in m <==> Under(f.nodes, v, u)
    decreases d, 1, 0
  {
    hide LinksOk, Below, NoRepeat;
    var below := MembersBelow(f.nodes, u, d, path, |d.children|);
    MembersBelowExactly(f, u, d, path, |d.children|);
    forall v ensures v in [u] + below <==> Under(f.nodes, v, u) {
      UnderChildren(f, u, v);
    }
    forall k | 0 <= k < |d.children| ensures !Under(f.nodes, u, f.nodes[u].children[k]) {
      NotUnderChild(f, u, k);
    }
    NoRepeatAppend([u], below);
  }

  lemma {:induction false} MembersBelowExactly(f: TreeState, u: Uid, d: NodeDef, path: string, n: nat)
    requires Indexed(f) && n <= |d.children| && BuiltChildren(f.nodes, u, d, path, n)
    ensures var m := MembersBelow(f.nodes, u, d, path, n);
            && NoRepeat(m)
            && forall v :: v in m <==> exists k :: 0 <= k < n && Under(f.nodes, v, f.nodes[u].children[k])
    decreases d, 0, n
  {
    hide LinksOk, Below, NoRepeat;
    if n == 0 {
      assert NoRepeat<Uid>([]) by {
        NoRepeatAppend<Uid>([], []);
      }
    } else {
      var ch := f.nodes[u].children;
      var front := MembersBelow(f.nodes, u, d, path, n - 1);
      var last := Members(f.nodes, ch[n - 1], d.children[n - 1], path + "/" + d.children[n - 1].id, u, false);
      MembersBelowExactly(f, u, d, path, n - 1);
      MembersExactly(f, ch[n - 1], d.children[n - 1], path + "/" + d.children[n - 1].id, u, false);
      forall v | v in front ensures v !in last {
        var k :| 0 <= k < n - 1 && Under(f.nodes, v, ch[k]);
        SiblingsApart(f, u, k, n - 1, v);
      }
      NoRepeatAppend(front, last);
    }
  }

  lemma NoRepeatAppend<T>(a: seq<T>, b: seq<T>)
    ensures NoRepeat(a + b) <==> NoRepeat(a) && NoRepeat(b) && forall x :: x in a ==> x !in b
    ensures NoRepeat<T>([])
    ensures |a| == 1 ==> NoRepeat(a)
  {
    var c := a + b;
    if NoRepeat(c) {
      assert forall i :: 0 <= i < |a| ==> c[i] == a[i];
      assert forall i :: 0 <= i < |b| ==> c[|a| + i] == b[i];
      forall i, j | 0 <= i < |a| && 0 <= j < |b| ensures a[i] != b[j] {
        assert c[i] == a[i] && c[|a| + j] == b[j];
      }
    }
    if NoRepeat(a) && NoRepeat(b) && forall x :: x in a ==> x !in b {
      forall i, j | 0 <= i < j < |c| ensures c[i] != c[j] {
        assert c[i] == if i < |a| then a[i] else b[i - |a|];
        assert c[j] == if j < |a| then a[j] else b[j - |a|];
        assert i < |a| <= j ==> a[i] in a && b[j - |a|] in b;
      }
    }
  }

  lemma NotUnderChild(f: TreeState, u: Uid, k: nat)
    requires Indexed(f) && u in f.nodes && k < |f.nodes[u].children|
    ensures !Under(f.nodes, u, f.nodes[u].children[k])
  {
    var c := f.nodes[u].children[k];
    assert ChildrenOk(f.nodes, u) && ParentOk(f.nodes, c);
    assert u < c by {
      assert u in f.nodes && f.nodes[c].parent == u && 0 !in f.nodes;
    }
    if Under(f.nodes, u, c) {
      BelowIsAtLeast(ParentsOf(f.nodes), u, c);
    }
  }

  lemma {:induction false} CommonAncestors(parents: map<nat, nat>, v: nat, a: nat, b: nat)
    requires Below(parents, v, a) && Below(parents, v, b)
    ensures Below(parents, a, b) || Below(parents, b, a)
    decreases v
  {
    if v != a && v != b {
      CommonAncestors(parents, parents[v], a, b);
    }
  }

  /** No node lies under two children of one node. */
  lemma SiblingsApart(f: TreeState, u: Uid, i: nat, j: nat, v: Uid)
    requires Indexed(f) && u in f.nodes && i < j < |f.nodes[u].children|
    ensures !(Under(f.nodes, v, f.nodes[u].children[i]) && Under(f.nodes, v, f.nodes[u].children[j]))
  {
    var a, b := f.nodes[u].children[i], f.nodes[u].children[j];
    assert ChildrenOk(f.nodes, u);
    if Under(f.nodes, v, a) && Under(f.nodes, v, b) {
      CommonAncestors(ParentsOf(f.nodes), v, a, b);
      NotUnderChild(f, u, i);
      if Below(ParentsOf(f.nodes), a, b) {
        BelowIsAtLeast(ParentsOf(f.nodes), a, b);
      }
    }
  }

  // ---- The exact condition ----

  /** Live nodes have pairwise different paths. */
  predicate PathsDiffer(nodes: map<Uid, NodeRecord>) {
    forall u, v {:trigger nodes[u].path, nodes[v].path} :: u in nodes && v in nodes && u != v ==>
      nodes[u].path != nodes[v].path
  }

  lemma CompleteIsDifferent(g: TreeState)
    requires PathsSound(g) && forall u :: u in g.nodes ==> g.nodes[u].path in g.pathToUid
    ensures PathsComplete(g) <==> PathsDiffer(g.nodes)
  {
  }

  /**
   * After a finished build on a bijective index, the index is a bijection again exactly when the paths of the
   * definition are pairwise different and none of them was taken.
   */
  lemma FinishedBuildIsBijective(f: TreeState, g: TreeState, d: NodeDef, path: string, parent: Uid, dynamic: bool)
    requires Indexed(f) && PathsComplete(f) && Indexed(g)
    requires BuildOutcome(f, g, d, path, parent) && Built(g.nodes, f.nextUid, d, path, parent, dynamic)
    ensures PathsComplete(g) <==>
            NoRepeat(Rendered(d, path)) && forall p :: p in Rendered(d, path) ==> p !in f.pathToUid
  {
    assert f.nextUid in g.nodes;
    hide LinksOk, HandlesOk, NamesOk, Below, PathIn, Clean, Built;
    var members, paths := Members(g.nodes, f.nextUid, d, path, parent, dynamic), Rendered(d, path);
    MembersRender(g.nodes, f.nextUid, d, path, parent, dynamic);
    MembersExactly(g, f.nextUid, d, path, parent, dynamic);
    NewNodes(f, g, d, path, parent);
    assert forall v :: v in members <==> v in g.nodes && v !in f.nodes;
    CompleteIsDifferent(g);
    OldAndNewPaths(f, g, members, paths);
  }

  lemma NewNodes(f: TreeState, g: TreeState, d: NodeDef, path: string, parent: Uid)
    requires Indexed(f) && PathsComplete(f) && Indexed(g) && BuildOutcome(f, g, d, path, parent) && f.nextUid in g.nodes
    ensures forall v :: v in f.nodes ==> v in g.nodes && g.nodes[v].path == f.nodes[v].path
    ensures forall v :: v in g.nodes ==> (Under(g.nodes, v, f.nextUid) <==> v !in f.nodes)
    ensures forall v :: Under(g.nodes, v, f.nextUid) ==> v in g.nodes
    ensures forall u :: u in g.nodes ==> g.nodes[u].path in g.pathToUid
  {
    hide LinksOk, HandlesOk, NamesOk, PathIn, Clean, NodeRecord.NodeId;
    forall v | v in f.nodes && Under(g.nodes, v, f.nextUid) ensures false {
      BelowIsAtLeast(ParentsOf(g.nodes), v, f.nextUid);
    }
  }

  lemma OldAndNewPaths(f: TreeState, g: TreeState, members: seq<Uid>, paths: seq<string>)
    requires PathsSound(f) && PathsComplete(f) && NoRepeat(members) && PathsAre(g.nodes, members, paths)
    requires forall v :: v in members <==> v in g.nodes && v !in f.nodes
    requires forall v :: v in f.nodes ==> v in g.nodes && g.nodes[v].path == f.nodes[v].path
    ensures PathsDiffer(g.nodes) <==> NoRepeat(paths) && forall p :: p in paths ==> p !in f.pathToUid
  {
    if PathsDiffer(g.nodes) {
      forall i, j | 0 <= i < j < |paths| ensures paths[i] != paths[j] {
        assert members[i] != members[j];
        assert g.nodes[members[i]].path != g.nodes[members[j]].path;
      }
      forall p | p in paths ensures p !in f.pathToUid {
        var i :| 0 <= i < |paths| && paths[i] == p;
        assert members[i] in members;
      }
    }
    if NoRepeat(paths) && forall p :: p in paths ==> p !in f.pathToUid {
      forall u, v | u in g.nodes && v in g.nodes && u != v ensures g.nodes[u].path != g.nodes[v].path {
        if u in f.nodes && v !in f.nodes {
          DifferentPaths(f, g, members, paths, v, u);
        } else {
          DifferentPaths(f, g, members, paths, u, v);
        }
      }
    }
  }

  lemma DifferentPaths(f: TreeState, g: TreeState, members: seq<Uid>, paths: seq<string>, u: Uid, v: Uid)
    requires PathsComplete(f) && PathsAre(g.nodes, members, paths) && NoRepeat(paths)
    requires forall v :: v in members <==> v in g.nodes && v !in f.nodes
    requires forall v :: v in f.nodes ==> v in g.nodes && g.nodes[v].path == f.nodes[v].path
    requires forall p :: p in paths ==> p !in f.pathToUid
    requires u in g.nodes && v in g.nodes && u != v && (u in f.nodes ==> v in f.nodes)
    ensures g.nodes[u].path != g.nodes[v].path
  {
    if u !in f.nodes {
      var i :| 0 <= i < |members| && members[i] == u;
      assert paths[i] in paths;
      if v !in f.nodes {
        var j :| 0 <= j < |members| && members[j] == v;
      }
    }
  }
}
