/** What create_subtree can do, branch by branch: where a build can stop and what it then leaves behind. */
module BuildSteps {
  import opened Forest

  /** Building `d` takes `f` to `g`; `done` tells a finished build from one that stopped part-way. */
  ghost predicate Builds(f: TreeState, g: TreeState, d: NodeDef, path: string, parent: Uid, dynamic: bool, done: bool)
    decreases d, 2, 0
  {
    || (!done && g == f)
    || exists handle :: CanAdd(f, d, path, handle, parent, dynamic)
                        && BuildsOn(AddNode(f, d, path, handle, parent, dynamic), g, d, path, f.nextUid, done)
  }

  /** The same from the moment the node itself is stored under `uid`. */
  ghost predicate BuildsOn(f: TreeState, g: TreeState, d: NodeDef, path: string, uid: Uid, done: bool)
    decreases d, 1, 0
  {
    if done then BuildsUpTo(f, g, d, path, uid, |d.children|)
    else exists n, m :: 0 < n <= |d.children| && BuildsChild(f, m, g, d, path, uid, n, false)
  }

  /** The children before the `n`-th one are built and leave `m`; the build of the `n`-th one ends or stops. */
  ghost predicate BuildsChild(f: TreeState, m: TreeState, g: TreeState, d: NodeDef, path: string, uid: Uid, n: nat,
                              done: bool)
    requires 0 < n <= |d.children|
    decreases d, 0, 2 * n - 1
  {
    && BuildsUpTo(f, m, d, path, uid, n - 1)
    && Builds(m, g, d.children[n - 1], path + "/" + d.children[n - 1].id, uid, false, done)
  }

  ghost predicate BuildsUpTo(f: TreeState, g: TreeState, d: NodeDef, path: string, uid: Uid, n: nat)
    requires n <= |d.children|
    decreases d, 0, 2 * n
  {
    if n == 0 then g == f else exists m :: BuildsChild(f, m, g, d, path, uid, n, true)
  }

  lemma Refused(f: TreeState, d: NodeDef, path: string, parent: Uid, dynamic: bool)
    ensures Builds(f, f, d, path, parent, dynamic, false)
  {
  }

  lemma Stored(f: TreeState, g: TreeState, d: NodeDef, path: string, handle: Handle, parent: Uid, dynamic: bool,
               done: bool)
    requires CanAdd(f, d, path, handle, parent, dynamic)
    requires BuildsOn(AddNode(f, d, path, handle, parent, dynamic), g, d, path, f.nextUid, done)
    ensures Builds(f, g, d, path, parent, dynamic, done)
  {
  }

  lemma NoChildYet(f: TreeState, d: NodeDef, path: string, uid: Uid)
    ensures BuildsUpTo(f, f, d, path, uid, 0)
  {
  }

  lemma OneMoreChild(f: TreeState, m: TreeState, g: TreeState, d: NodeDef, path: string, uid: Uid, i: nat, done: bool)
    requires i < |d.children| && BuildsUpTo(f, m, d, path, uid, i)
    requires Builds(m, g, d.children[i], path + "/" + d.children[i].id, uid, false, done)
    ensures if done then BuildsUpTo(f, g, d, path, uid, i + 1) else BuildsOn(f, g, d, path, uid, false)
  {
    hide Builds;
    assert BuildsChild(f, m, g, d, path, uid, i + 1, done);
  }

  lemma NoChildLeft(f: TreeState, g: TreeState, d: NodeDef, path: string, uid: Uid)
    requires BuildsUpTo(f, g, d, path, uid, |d.children|)
    ensures BuildsOn(f, g, d, path, uid, true)
  {
  }

  /** A node without children is stored whole or not at all. */
  lemma ChildlessWhole(f: TreeState, g: TreeState, d: NodeDef, path: string, parent: Uid, dynamic: bool)
    requires d.children == [] && Builds(f, g, d, path, parent, dynamic, false)
    ensures g == f
  {
  }

  /** Without a uid nothing is stored. */
  lemma NothingStored(f: TreeState, g: TreeState, d: NodeDef, path: string, parent: Uid, dynamic: bool)
    requires f.nextUid == 0 && Builds(f, g, d, path, parent, dynamic, false)
    ensures g == f
  {
  }
}
