/** Arbitrary runs of document operations, on one document and on two that share a backend. */
module DocumentRuns {
  import opened Text
  import opened Forest
  import opened LiveDocuments

  /** What a caller can ask of a document; loading is a rebuild of an empty one. */
  datatype Step =
    | MakeView(templateId: string, parentPath: string, instanceId: string)
    | DropView(path: string)
    | MountScreen(screenId: string)
    | UnmountScreen(path: string)
    | Reload(screens: map<string, NodeDef>, templates: map<string, NodeDef>, order: seq<string>,
             instantiated: seq<string>, valid: bool)

  /** Only validated definitions are loaded, and a document lists every screen once. */
  predicate StepFits(step: Step) {
    step.Reload? ==>
      && DefinitionsFit(step.screens, step.templates)
      && (forall i :: 0 <= i < |step.order| ==> step.order[i] in step.screens)
      && (forall i, j :: 0 <= i < j < |step.order| ==> step.order[i] != step.order[j])
  }

  predicate NoSlashIn(step: Step) {
    step.Reload? ==> AllSlashFree(step.screens) && AllSlashFree(step.templates)
  }

  /** Slash-free definitions, a bijective path index, no root but the listed ones. */
  predicate Tidy(screens: map<string, NodeDef>, templates: map<string, NodeDef>, f: TreeState) {
    AllSlashFree(screens) && AllSlashFree(templates) && Settled(f)
  }

  /** A document at one moment of a run, and how much its backend has refused so far. */
  datatype Moment = Moment(tree: TreeState, screens: map<string, NodeDef>, templates: map<string, NodeDef>,
                           refusals: nat)

  function Now(doc: LiveDocument): Moment
    reads doc, doc.backend
  {
    Moment(doc.State(), doc.screens, doc.templates, doc.backend.refusals)
  }

  /** Nothing stood in the way of a build: the backend refused nothing and there are uids left. */
  predicate Smooth(before: Moment, after: Moment) {
    after.refusals == before.refusals && after.tree.nextUid != 0
  }

  /** What a step must do; a build is complete when nothing stood in its way. */
  ghost predicate StepDone(step: Step, before: Moment, after: Moment, broken: bool)
    requires StepFits(step)
  {
    var f, g := before.tree, after.tree;
    match step
    case MakeView(templateId, parentPath, instanceId) =>
      var parent, name := NormalizePath(parentPath), TrimSlashes(instanceId);
      && after == before.(tree := g, refusals := after.refusals)
      && if templateId in before.templates && parent != "/" && Segment(name) && parent in f.pathToUid
            && parent + "/" + name !in f.pathToUid
         then Smooth(before, after) ==>
           && parent + "/" + name in g.pathToUid
           && Built(g.nodes, g.pathToUid[parent + "/" + name], before.templates[templateId], parent + "/" + name,
                    f.pathToUid[parent], true)
         else g == f
    case DropView(path) =>
      var query := NormalizePath(path);
      after == if query in f.pathToUid && f.pathToUid[query] in f.nodes
                  && !f.nodes[f.pathToUid[query]].definition.screen
               then before.(tree := RemoveSubtree(f, f.pathToUid[query])) else before
    case MountScreen(id) =>
      && after == before.(tree := g, refusals := after.refusals)
      && if id in before.screens && id !in f.screenRoots && before.screens[id].dynamicMount
         then Smooth(before, after) ==>
           !broken && id in g.screenRoots && Built(g.nodes, g.screenRoots[id], before.screens[id], "/" + id, 0, false)
         else g == f
    case UnmountScreen(path) =>
      var id := TrimSlashes(path);
      after == if id in f.screenRoots && f.screenRoots[id] in f.nodes
                  && id in before.screens && before.screens[id].dynamicMount
               then before.(tree := RemoveSubtree(f, f.screenRoots[id]).(screenRoots := f.screenRoots - {id}))
               else before
    case Reload(screens, templates, order, instantiated, valid) =>
      && after == Moment(g, screens, templates, after.refusals)
      && if valid
         then Smooth(before, after) ==>
           !broken && Rebuilt(g, f.nextUid, screens) && g.screenRoots.Keys == Wanted(screens, order, instantiated)
         else g == TreeState(map[], map[], map[], map[], f.nextUid)
  }

  /** One step; `broken` reports that a screen could not be built. A view that could not be built breaks nothing. */
  method Perform(doc: LiveDocument, step: Step) returns (broken: bool)
    requires doc.Valid() && StepFits(step)
    modifies doc, doc.backend
    ensures doc.Valid() && Touches(old(doc.BackendSide()), doc.BackendSide())
    ensures !broken && NoSlashIn(step) && (step.Reload? || old(Tidy(doc.screens, doc.templates, doc.State()))) ==>
      Tidy(doc.screens, doc.templates, doc.State())
    ensures old(doc.backend.refusals) <= doc.backend.refusals && (old(doc.nextUid) == 0 ==> doc.nextUid == 0)
    ensures broken ==> old(doc.backend.refusals) < doc.backend.refusals || doc.nextUid == 0
    ensures StepDone(step, old(Now(doc)), Now(doc), broken)
  {
    hide Settled, Touches, DefinitionsFit, Indexed, Mirrors, RootsOk, BuildOutcome, Built, RemoveSubtree, NormalizePath,
      TrimSlashes, IdsSlashFree, Wanted, Rebuilt, Partly;
    IndexLives(doc.State());
    broken := false;
    match step {
      case MakeView(templateId, parentPath, instanceId) =>
        var view := doc.CreateView(templateId, parentPath, instanceId);
      case DropView(path) =>
        var dropped := doc.DestroyView(path);
      case MountScreen(screenId) =>
        var root := doc.EnsureScreenRoot(screenId);
        broken := ScreenBuildFails(root);
      case UnmountScreen(path) =>
        var destroyed := doc.UnmountMountedScreen(path);
      case Reload(screens, templates, order, instantiated, valid) =>
        var rebuilt := doc.Rebuild(screens, templates, order, instantiated, valid);
        broken := ScreenBuildFails(rebuilt);
    }
  }

  lemma IndexLives(f: TreeState)
    requires WellFormed(f)
    ensures forall p :: p in f.pathToUid ==> f.pathToUid[p] in f.nodes
    ensures forall s :: s in f.screenRoots ==> f.screenRoots[s] in f.nodes
  {
  }

  /** No screen build failed since the last reload, or since the start when there was none. */
  predicate Unbroken(steps: seq<Step>, broken: seq<bool>, n: nat)
    requires n <= |steps| && n <= |broken|
  {
    n == 0 || (!broken[n - 1] && (steps[n - 1].Reload? || Unbroken(steps, broken, n - 1)))
  }

  lemma UnbrokenExtends(steps: seq<Step>, a: seq<bool>, b: seq<bool>, n: nat)
    requires n <= |steps| && n <= |a| && n <= |b| && a[..n] == b[..n]
    ensures Unbroken(steps, a, n) == Unbroken(steps, b, n)
  {
    if n > 0 {
      assert a[n - 1] == a[..n][n - 1] == b[n - 1];
      assert a[..n - 1] == a[..n][..n - 1] == b[..n - 1];
      UnbrokenExtends(steps, a, b, n - 1);
    }
  }

  lemma NeverBroken(steps: seq<Step>, broken: seq<bool>, n: nat)
    requires n <= |steps| && n <= |broken| && forall k :: 0 <= k < n ==> !broken[k]
    ensures Unbroken(steps, broken, n)
  {
  }

  /**
   * Over every run the document's invariants hold, whatever fails on the way; and unless a screen build has failed
   * since the last reload, the path index is a bijection and the parentless nodes are the roots of the listed
   * screens. Where the backend refused nothing and the uids lasted, no screen build failed.
   */
  method Run(doc: LiveDocument, steps: seq<Step>) returns (broken: seq<bool>, ghost moments: seq<Moment>)
    requires doc.Valid() && Tidy(doc.screens, doc.templates, doc.State())
    requires forall i :: 0 <= i < |steps| ==> StepFits(steps[i])
    modifies doc, doc.backend
    ensures doc.Valid() && |broken| == |steps|
    ensures |moments| == |steps| + 1 && moments[0] == old(Now(doc)) && moments[|steps|] == Now(doc)
    ensures forall i :: 0 <= i < |steps| ==> StepDone(steps[i], moments[i], moments[i + 1], broken[i])
    ensures (forall i :: 0 <= i < |steps| ==> NoSlashIn(steps[i])) && Unbroken(steps, broken, |steps|) ==>
      Tidy(doc.screens, doc.templates, doc.State())
    ensures doc.backend.refusals == old(doc.backend.refusals) && doc.nextUid != 0 ==> Unbroken(steps, broken, |steps|)
  {
    hide Tidy, Touches, StepFits, StepDone, NoSlashIn, Indexed, Mirrors, RootsOk, DefinitionsFit;
    broken, moments := [], [Now(doc)];
    for i := 0 to |steps|
      invariant doc.Valid() && |broken| == i
      invariant |moments| == i + 1 && moments[0] == old(Now(doc)) && moments[i] == Now(doc)
      invariant forall k :: 0 <= k < i ==> StepDone(steps[k], moments[k], moments[k + 1], broken[k])
      invariant (forall k :: 0 <= k < |steps| ==> NoSlashIn(steps[k])) && Unbroken(steps, broken, i) ==>
        Tidy(doc.screens, doc.templates, doc.State())
      invariant old(doc.backend.refusals) <= doc.backend.refusals
      invariant doc.backend.refusals == old(doc.backend.refusals) && doc.nextUid != 0 ==>
        forall k :: 0 <= k < i ==> !broken[k]
    {
      var failed := Perform(doc, steps[i]);
      UnbrokenExtends(steps, broken, broken + [failed], i);
      broken, moments := broken + [failed], moments + [Now(doc)];
    }
    if doc.backend.refusals == old(doc.backend.refusals) && doc.nextUid != 0 {
      NeverBroken(steps, broken, |steps|);
    }
  }

  /** One document's step beside another document on the same backend. */
  method PerformBeside(a: LiveDocument, b: LiveDocument, step: Step) returns (broken: bool)
    requires a != b && a.backend == b.backend && a.Valid() && b.Valid() && a.BackendSide().own !! b.BackendSide().own
    requires StepFits(step)
    modifies a, a.backend
    ensures a.Valid() && b.Valid() && a.BackendSide().own !! b.BackendSide().own
    ensures StepDone(step, old(Now(a)), Now(a), broken)
  {
    hide Touches, StepFits, StepDone, NoSlashIn, Tidy, Indexed, Mirrors, RootsOk, DefinitionsFit;
    ghost var side := a.BackendSide();
    OwnIsNotZero(a.State(), a.backend.parents, a.leaked);
    broken := Perform(a, step);
    OtherDocumentKept(a, b, side);
  }

  /** The one document does its step, the other one is left alone. */
  ghost predicate TurnDone(turn: (bool, Step), a: Moment, b: Moment, c: Moment, d: Moment, broken: bool)
    requires StepFits(turn.1)
  {
    if turn.0 then StepDone(turn.1, a, c, broken) && d == b.(refusals := d.refusals)
    else StepDone(turn.1, b, d, broken) && c == a.(refusals := c.refusals)
  }

  /** Two documents take turns on one backend: both stay valid, never share a handle and do what they are asked. */
  method RunBoth(a: LiveDocument, b: LiveDocument, turns: seq<(bool, Step)>)
    returns (broken: seq<bool>, ghost moments: seq<(Moment, Moment)>)
    requires a != b && a.backend == b.backend && a.Valid() && b.Valid() && a.BackendSide().own !! b.BackendSide().own
    requires forall i :: 0 <= i < |turns| ==> StepFits(turns[i].1)
    modifies a, b, a.backend
    ensures a.Valid() && b.Valid() && a.BackendSide().own !! b.BackendSide().own
    ensures |broken| == |turns| && |moments| == |turns| + 1
    ensures moments[0] == (old(Now(a)), old(Now(b))) && moments[|turns|] == (Now(a), Now(b))
    ensures forall i :: 0 <= i < |turns| ==>
      TurnDone(turns[i], moments[i].0, moments[i].1, moments[i + 1].0, moments[i + 1].1, broken[i])
  {
    hide Touches, StepFits, StepDone, Indexed, Mirrors, RootsOk, DefinitionsFit;
    broken, moments := [], [(Now(a), Now(b))];
    for i := 0 to |turns|
      invariant a.Valid() && b.Valid() && a.BackendSide().own !! b.BackendSide().own
      invariant |broken| == i && |moments| == i + 1
      invariant moments[0] == (old(Now(a)), old(Now(b))) && moments[i] == (Now(a), Now(b))
      invariant forall k :: 0 <= k < i ==>
        TurnDone(turns[k], moments[k].0, moments[k].1, moments[k + 1].0, moments[k + 1].1, broken[k])
    {
      var failed;
      if turns[i].0 {
        failed := PerformBeside(a, b, turns[i].1);
      } else {
        failed := PerformBeside(b, a, turns[i].1);
      }
      broken, moments := broken + [failed], moments + [(Now(a), Now(b))];
    }
  }
}
