# The declarative GUI runtime, modelled and proved in Dafny

The runtime in `gui/brookesia_gui_interface` turns parsed documents into a live forest of view nodes and keeps several
tables in agreement with it: handle and path indices, screen roots, the mount table, running screen flows, an image
preload ledger per document, style caches and a data store with listeners. This project models those parts, in the form
the source has (objects whose methods update their fields, loops, recursive expression code), and proves what holds after
every sequence of steps, including creations that fail part-way. `dafny verify dfyconfig.toml` checks all of it.

| file | what it is about |
|---|---|
| `Text.dfy`, `Keys.dfy`, `Segments.dfy` | paths, decimal ids and prefixed table keys, splitting at a mark |
| `Forest.dfy` | the node forest as a value: invariants, adding a node, removing a subtree, what a build may leave behind |
| `BuildSteps.dfy` | what building a node can do, branch by branch |
| `LiveDocument.dfy` | the document object and an abstract backend: building, destroying, mounting, unloading, rebuilding |
| `PathIndex.dfy` | when the path index of a finished build is a bijection |
| `DocumentRuns.dfy` | arbitrary runs of operations, on one document and on two that share a backend |
| `HotReload.dfy` | capturing, sorting and replaying dynamic instances; a whole update |
| `ImageLedger.dfy` | automatic and manual preload counts, and what they keep resident in the backend |
| `ImageRuns.dfy` | arbitrary runs of everything that moves those counts |
| `BindingBatch.dfy` | batched binding updates against one update at a time |
| `DataStore.dfy` | the store's tables, and notifications interleaved with re-entrant calls |
| `StyleCascade.dfy`, `FontChain.dfy`, `StyleCache.dfy` | layered styles, font fallback, the resolver and the cache in front of it |
| `Json.dfy`, `ThemeColors.dfy`, `Interactions.dfy` | deep merges, flattened colour tables, interaction templates |
| `TemplateSlots.dfy`, `TemplateExpansion.dfy` | slots and overrides, recursive template references |
| `TemplateMeaning.dfy` | what slots and overrides leave behind, in terms of lookups |
| `OverrideOutline.dfy` | exactly when overrides keep every node's id, type and children |
| `Screens.dfy` | mount table, transient mounts, screen flows, unloading a document |
| `FlowHistory.dfy` | a flow's state over whole runs, reloads included |
| `ScreenRoots.dfy` | mounted and transient screens against the live screen roots |
| `Subscriptions.dfy` | who owns which subscription, and which of them are event animations |
| `Versions.dfy` | dotted version comparison and pagination of the app store |

Each mutable object has a specification function for its state; its methods are proved to give exactly that state, and the
properties are lemmas about the function. Predicates named `...Means` say what an operation is for without that function:
through lookups, entries and who is shown, called or held.

## Main results

- Every run of document operations does, step by step, what it is asked, keeps handle index, path index, links and roots
  in agreement, and the path index a bijection as long as no screen build fails (`DocumentRuns.Run`); two documents on one
  backend do not disturb each other (`DocumentRuns.RunBoth`). A finished build keeps the bijection exactly when its rendered paths are different and free
  (`PathIndex.FinishedBuildIsBijective`).
- `destroy_subtree` and the root loop of `unload_partial_tree` remove exactly what they should
  (`LiveDocuments.LiveDocument.DestroySubtree`, `DestroyRoots`).
- A hot reload brings back every surviving instance on its own merits, and every one of them when the backend refuses
  nothing (`HotReload.Update`).
- From a fresh runtime, over every run of loads, reloads, unloads and image operations, preload counts and residency
  agree (`ImageRuns.Run`), with exact roll-back and exact release (`ImageLedger.RollbackExact`, `HeldAfterReleases`).
- A batch of binding writes is the one-at-a-time run, exactly under a condition on its last writers
  (`BindingBatch.BatchEqualsSequentialExactly`), and announces each path and key once (`AnnouncedOnce`, `AnnouncedAll`);
  what it leaves is stated over bindings, keys and paths (`BindingBatch.BatchMeans`).
- Over every interleaving of notifications and re-entrant calls a listener is called only while it is due
  (`DataStore.CallWasDue`, `DataStore.CalledAtMostOnce`), every listener that stays due is called, in order
  (`DataStore.EveryListenerIsCalled`, `DataStore.TurnsInOrder`), and the tables agree (`DataStore.RunOk`).
- The style cache hands out what resolving gives, and when it does not (`StyleCache.StyleRuntime.ResolveStyleShared`,
  `StyleCache.AskTwice`); a resolved style shows, place by place, the highest source with its colours resolved, and the
  right font (`StyleCache.StyleIsMeant`); the font search is breadth first on any graph (`FontChain.ChainIsBreadthFirst`,
  `FontChain.ChainInMentionOrder`); the cascade is a monoid action (`StyleCascade.LastSetterWins`, `FoldedConcat`).
- Template expansion accepts exactly what plain expansion accepts without re-entering a template
  (`TemplateExpansion.ViewExactly`); a reference stands for its template with every slot filled in place and the overrides
  done in turn, each at its target and nowhere else (`TemplateExpansion.ReferenceIsMeant`, `TemplateMeaning.SlotsAreMeant`,
  `TemplateMeaning.OverridesAreMeant`); overrides keep the outline exactly when no key of
  theirs is structural at its target (`OverrideOutline.OverridesUnnoticedExactly`); interaction templates layer
  (`Interactions.NearestLayerWins`).
- The two deep merges agree exactly when no default finds another key (`Json.DefaultsAreMergeExactly`); flattened colours
  agree with the path walk exactly when dotted keys do no harm (`ThemeColors.FlattenedIsWalkExactly`).
- A flow's state is its automaton folded over the accepted actions (`Screens.StateIsFold`), through reloads too
  (`FlowHistory.StateIsHistory`); an action takes the first transition that applies and is refused exactly without one
  (`Screens.TriggerIsMeant`, `Screens.RefusedExactly`); unloading isolates (`Screens.ScreenRuntime.Unload`); mounted and
  transient screens keep live roots over exactly the runs that spare them (`ScreenRoots.RunMountsExactly`,
  `RunTransientsExactly`).
- Version comparison is transitive exactly on orderly versions (`Versions.TransitiveExactly`, `Versions.SafeExactly`).

## Where a natural property fails

The code is modelled as it is; each point has a lemma with the failing input and one with the exact condition.

- Retrying a dynamic screen whose first build failed leaves an orphaned root on the same path, so the path index is no
  longer a bijection (`Forest.RetriedScreenBuild`; a build can be stopped without harm wherever it stops exactly when the
  screen has no children, `LiveDocuments.ScreenBuildHarmlessExactly`). An id with a slash in it passes validation and can
  have the same effect (`Forest.SlashInIdCollides`; exactly when, `PathIndex.FinishedBuildIsBijective`).
- When the 32-bit node ids have run out, `create_subtree` asks for a reload, but an in-place `update` keeps the counter:
  it leaves no node and every later creation fails too (`LiveDocuments.ReloadWithoutUids`). Unloading and loading again helps.
- A failing `preload_images` restores counts and residency, but preload flags it raised stay raised
  (`ImageLedger.RollbackExact` says exactly when).
- Releasing an image twice in one `release_preloaded_images` call can leave a node that shows it without it, because each
  id is refreshed once (`ImageLedger.ReleasedTwice`); `ImageLedger.HeldAfterReleases` says exactly what is still held.
- In a batch, an update whose value is rejected still shadows an earlier accepted one (`BindingBatch.LostUpdate`); the
  batch equals single updates exactly when, for every field whose last writer is shadowed, the last unshadowed writer gives
  the same value (`BindingBatch.BatchEqualsSequentialExactly`).
- Batched updates skip normalising a path that begins with several slashes (`Text.QueryIsNormal`).
- Loading a theme that a loaded document uses but that is not current, setting a default font for a language that is not
  current, and picking up fonts from the backend while building a view do not advance the style revision, so cached
  styles go stale (`StyleCache.StaleTheme`, `StyleCache.AskTwice`); `StyleCache.ThemeLoadNoticed`, `DefaultFontNoticed` and
  `FontChangeNoticed` say exactly which changes matter.
- A default whose spelling finds another key is dropped, where a plain merge would keep both (`Json.MixedSpelling`,
  `Json.DigitSpelling`; exactly when, `Json.DefaultsAreMergeExactly`).
- A dotted colour key is flattened to a colour no path walk finds, or overwrites one (`ThemeColors.DottedKeyIsLost`,
  `DottedKeyOverwrites`; exactly when, `ThemeColors.FlattenedIsWalkExactly`).
- An override may write `Children` and change a node's structure (`TemplateSlots.CapitalisedChildren`;
  exactly when, `TemplateSlots.WriteUnnoticed` for one write and `OverrideOutline.OverridesUnnoticedExactly` for a list).
- A template put into a slot of itself is refused as a cycle although its expansion is finite
  (`TemplateExpansion.CardInCard`); `TemplateExpansion.ViewExactly` says exactly what is accepted.
- `forget_document` also takes unscoped keys that start like scoped ones (`Keys.PlainKeyTaken`; exactly which,
  `Keys.PlainKeysTaken`), and scoped keys are ambiguous exactly when a path contains the key mark
  (`Keys.ScopedKeyUnambiguous`).
- Popping a transient dynamic screen that is mounted as well leaves a mount without a root, and popping one that was
  pushed twice a transient screen (`ScreenRoots.PushedTwice`; exactly when, `ScreenRoots.PopRootedExactly`,
  `PopTransientsExactly` and their counterparts for mounting and unmounting).
- Where the rounding sum of the page count wraps, no page is counted (`Versions.PagesCoverExactly`).
- `compare_versions` is not transitive when decimal and other segments mix, and an empty version equals every other
  (`Versions.MixedVersionsCycle`, `Versions.EmptyEqualsAll`; exactly when, `Versions.TransitiveExactly`).

## Model

| member | source | states |
|---|---|---|
| Text.NormalizeFixedPoints | gui/brookesia_gui_interface/src/private/runtime_impl.hpp:196-217 | a path is already normal exactly when it is "/" or has one leading and no trailing slash; normalising twice is normalising once |
| Text.NormalizeStrips | gui/brookesia_gui_interface/src/private/runtime_impl.hpp:196-217 | normalising drops the slashes at both ends, nothing else, and puts one in front |
| Text.QueryIsNormal | gui/brookesia_gui_interface/src/runtime_binding.cpp:925-930 | the shortcut of batched updates looks a path up unnormalised exactly when it has several leading slashes and no trailing one |
| Text.LastSegmentUnique | gui/brookesia_gui_interface/src/runtime_subtree.cpp:43-44 | a path splits in only one way into a parent path and a last id without slash |
| Keys.ScopedKeyOwner | gui/brookesia_gui_interface/src/data_store.cpp:27-31 | the prefix made from document id N matches a scoped store key exactly when the key belongs to document N |
| Keys.OneDocument | gui/brookesia_gui_interface/src/data_store.cpp:243-269 | no store key whatsoever carries the prefixes of two documents |
| Keys.PlainKeyTaken | gui/brookesia_gui_interface/src/data_store.cpp:243-256 | one such plain key: no scoped write could have made it |
| Keys.PlainKeysTaken | gui/brookesia_gui_interface/src/data_store.cpp:243-256 | of all keys with a document's prefix, exactly those whose rest reads as a path and a key come from scoped writes; every other one is a plain key forgotten with the document |
| Keys.ScopedKeyInjective | gui/brookesia_gui_interface/src/data_store.cpp:27-31 | with paths free of the key mark, different (document, path, key) triples never share a store key |
| Keys.ScopedKeyUnambiguous | gui/brookesia_gui_interface/src/data_store.cpp:27-31 | a scoped key can be read with a shorter path exactly when the path itself contains the key mark |
| Keys.UnitKeyOwner | gui/brookesia_gui_interface/src/runtime_screen.cpp:554-566 | the `N<unit separator>` prefix selects exactly the keys of document N |
| Keys.UnitKeyInjective | gui/brookesia_gui_interface/src/private/runtime_impl.hpp:588-591 | a flow key names one document and one flow |
| Forest.AddNodeWellFormed | gui/brookesia_gui_interface/src/runtime_subtree.cpp:246-258 | storing a node keeps every forest invariant: handle index inverse to the handles, no dangling path, mutual and ordered links, sound roots |
| Forest.AddNodePaths | gui/brookesia_gui_interface/src/runtime_subtree.cpp:258 | the path index stays a bijection exactly when the new path was free (the insertion does not overwrite) |
| Forest.RemoveSubtreeIndexed | gui/brookesia_gui_interface/src/runtime_subtree.cpp:402-460 | removing all descendants of a node keeps every index invariant |
| Forest.RemoveSubtreeRoots | gui/brookesia_gui_interface/src/runtime_subtree.cpp:399-400 | screen roots stay sound exactly when none of them is the removed node itself |
| Forest.RemoveSubtreePaths | gui/brookesia_gui_interface/src/runtime_subtree.cpp:455 | a complete path index stays complete |
| Forest.EraseStep | gui/brookesia_gui_interface/src/runtime_subtree.cpp:428-459 | one turn of the erase loop takes exactly one entry out of each index |
| Forest.UnderChildren | gui/brookesia_gui_interface/src/runtime_subtree.cpp:461-473 | the descendants of a node are itself and the descendants of its children |
| Forest.GrownUnder | gui/brookesia_gui_interface/src/runtime_subtree.cpp:330-357 | whatever a build below a parent adds, finished or not, lies under that parent and above its uid |
| Forest.GrownThrough | gui/brookesia_gui_interface/src/runtime_subtree.cpp:330-357 | growth below a freshly stored node is growth below its parent |
| Forest.StoredOutcome | gui/brookesia_gui_interface/src/runtime_subtree.cpp:330-357 | storing a node and whatever its children then added is an allowed outcome of building the whole subtree |
| Forest.BuiltStable | gui/brookesia_gui_interface/src/runtime_subtree.cpp:340-357 | a finished instance stays finished while nothing at or above its uid changes |
| Forest.ChildPathFree | gui/brookesia_gui_interface/src/runtime_subtree.cpp:340-350 | under a clean index a child path is free as soon as no sibling carries its id |
| Forest.RetriedScreenBuild | gui/brookesia_gui_interface/src/runtime_screen.cpp:165-195 | retrying a dynamic screen after a failed build leaves two roots on one path: every invariant holds but the path index is no bijection |
| Forest.SlashInIdCollides | gui/brookesia_gui_interface/src/runtime_subtree.cpp:43-44 | an id with a slash passes validation; "a/b" beside "a" holding "b" makes two nodes share a path in every finished build |
| Forest.NewPathsByChild | gui/brookesia_gui_interface/src/runtime_subtree.cpp:330-357 | whatever a build adds, finished or not, sits on a path of the definition, and that path is in the index |
| PathIndex.MembersExactly | gui/brookesia_gui_interface/src/runtime_subtree.cpp:330-357 | the nodes of a finished instance, in preorder, are exactly the live nodes under its root, each once |
| PathIndex.MembersRender | gui/brookesia_gui_interface/src/runtime_subtree.cpp:330-357 | they carry the paths the definition renders, in the same order |
| PathIndex.FinishedBuildIsBijective | gui/brookesia_gui_interface/src/runtime_subtree.cpp:246-258 | after a finished build the path index is a bijection again exactly when the rendered paths of the definition are pairwise different and none was taken |
| Forest.RelativePathRenders | gui/brookesia_gui_interface/src/runtime_document.cpp:48-74 | the ids collected on the walk to the root render exactly the stored absolute path |
| Forest.DropAllRoots | gui/brookesia_gui_interface/src/runtime_subtree.cpp:359-369 | removing every parentless node, one after the other, leaves nothing |
| Forest.RootsIndependent | gui/brookesia_gui_interface/src/runtime_subtree.cpp:367-369 | a root not reached yet survives the removal of the roots before it |
| Forest.RemoveUndoesGrowth | gui/brookesia_gui_interface/src/runtime_subtree.cpp:330-357 | destroying what a build added restores nodes, handle index and path index exactly; only the next uid has moved |
| LiveDocuments.Backend.CreateNode | gui/brookesia_gui_lvgl/src/backend.cpp:181-240 | a creation either refuses, which is counted and changes nothing else, or hands out the next fresh handle under the given parent |
| LiveDocuments.Backend.DestroyNode | gui/brookesia_gui_lvgl/src/backend.cpp:285-330 | deleting a handle deletes everything below it and nothing else |
| LiveDocuments.MirrorBelow | gui/brookesia_gui_interface/src/runtime_subtree.cpp:417 | ancestry among live nodes and among their backend handles agree |
| LiveDocuments.MirrorRemove | gui/brookesia_gui_interface/src/runtime_subtree.cpp:417-459 | destroying a subtree on both sides keeps forest and backend in step |
| LiveDocuments.PrunedExactly | gui/brookesia_gui_interface/src/runtime_subtree.cpp:417 | one backend call at a node takes the handles of exactly its descendants and no handle of another document |
| LiveDocuments.ForeignKept | gui/brookesia_gui_interface/src/runtime_subtree.cpp:417 | no backend object of another document is ever below a node of this one |
| LiveDocuments.TouchesPrune | gui/brookesia_gui_interface/src/runtime_subtree.cpp:417 | destroying a subtree leaves every foreign backend object where it is |
| LiveDocuments.OtherMirrorKept | gui/brookesia_gui_interface/src/runtime_subtree.cpp:83-88 | backend changes of one document keep forest and backend of another one in step |
| LiveDocuments.OtherDocumentKept | gui/brookesia_gui_interface/src/runtime_subtree.cpp:10-460 | of two documents on one backend, the one that is not called stays valid, and they never share a handle |
| LiveDocuments.ViewSettles | gui/brookesia_gui_interface/src/runtime_view.cpp:96-135 | a view, built to the end or not, keeps the path index a bijection and adds no root |
| LiveDocuments.DroppedRootKeepsListed | gui/brookesia_gui_interface/src/runtime_subtree.cpp:396-400 | dropping one screen root leaves every other parentless node listed |
| LiveDocuments.BuiltScreenSettles | gui/brookesia_gui_interface/src/runtime_screen.cpp:178-193 | a built and listed screen keeps the path index a bijection and every root listed |
| LiveDocuments.FailedScreenBuild | gui/brookesia_gui_interface/src/runtime_screen.cpp:178-193 | of one failed screen build: it keeps them exactly when it stored nothing |
| LiveDocuments.ScreenBuildHarmlessExactly | gui/brookesia_gui_interface/src/runtime_subtree.cpp:10-358 | whatever stops a screen build, it keeps the path index a bijection and every root listed exactly when the screen has no children or no uid is left |
| LiveDocuments.FirstChildRefused | gui/brookesia_gui_interface/src/runtime_subtree.cpp:340-355 | for every screen with a child there is a harmful way to stop: the root is stored, unlisted, and its first child refused |
| LiveDocuments.LiveDocument.StoreNode | gui/brookesia_gui_interface/src/runtime_subtree.cpp:83-88 | allocates the next uid and enters the node in the node map, both indices and its parent; the uid space ends after 32 bits |
| BuildSteps.OneMoreChild | gui/brookesia_gui_interface/src/runtime_subtree.cpp:340-355 | a build goes on with the next child or stops in it |
| BuildSteps.ChildlessWhole | gui/brookesia_gui_interface/src/runtime_subtree.cpp:59-86 | a node without children is stored whole or not at all |
| LiveDocuments.LiveDocument.RequestNode | gui/brookesia_gui_interface/src/runtime_subtree.cpp:59-86 | preloading or creation may be refused, or the uids have run out and the new backend node leaks; otherwise the handle is fresh and under the parent |
| LiveDocuments.LiveDocument.CreateSubtree | gui/brookesia_gui_interface/src/runtime_subtree.cpp:10-358 | building, even when it stops part-way, keeps all invariants, only adds nodes below the new one and touches no foreign backend object; on success the whole definition is there in order, and a failure is one refused request or the end of the uids; where it stops is one of the places `BuildSteps.Builds` lists |
| LiveDocuments.LiveDocument.InstallNode | gui/brookesia_gui_interface/src/runtime_subtree.cpp:246-358 | the part after the backend node exists, with the same promise |
| LiveDocuments.LiveDocument.BuildChildren | gui/brookesia_gui_interface/src/runtime_subtree.cpp:340-355 | children are built in order and the first failure stops the build |
| LiveDocuments.LiveDocument.CollectSubtreeUids | gui/brookesia_gui_interface/src/runtime_subtree.cpp:461-473 | collects exactly the live nodes under a uid |
| LiveDocuments.LiveDocument.DetachFromParent | gui/brookesia_gui_interface/src/runtime_subtree.cpp:419-426 | only the parent's child list loses the node |
| LiveDocuments.LiveDocument.EraseRecords | gui/brookesia_gui_interface/src/runtime_subtree.cpp:428-459 | afterwards every index has lost exactly the descendants |
| LiveDocuments.LiveDocument.DestroySubtree | gui/brookesia_gui_interface/src/runtime_subtree.cpp:402-460 | removes exactly the descendants from every index with one backend destroy call; an unknown uid changes nothing |
| LiveDocuments.LiveDocument.DestroyRoots | gui/brookesia_gui_interface/src/runtime_subtree.cpp:367-369 | the root loop alone already empties nodes, handle index and path index, with one backend call per root and no foreign object touched |
| LiveDocuments.LiveDocument.UnloadPartialTree | gui/brookesia_gui_interface/src/runtime_subtree.cpp:359-378 | everything of the document is gone from the tables and the backend, every foreign object is where it was |
| LiveDocuments.LiveDocument.FindRootNode | gui/brookesia_gui_interface/src/runtime_document.cpp:48-59 | finds the parentless ancestor |
| LiveDocuments.LiveDocument.BuildRelativeNodePath | gui/brookesia_gui_interface/src/runtime_document.cpp:60-74 | collects the ids from below the root down to the node |
| LiveDocuments.LiveDocument.CreateView | gui/brookesia_gui_interface/src/runtime_view.cpp:45-135 | refused for the stated reasons without touching anything, otherwise a complete instance under the requested path, unless the backend refused one request or the uids ran out |
| LiveDocuments.LiveDocument.LocateInstance | gui/brookesia_gui_interface/src/runtime_view.cpp:101-131 | the path rebuilt from the ancestors is the queried path plus the new id |
| LiveDocuments.LiveDocument.DestroyView | gui/brookesia_gui_interface/src/runtime_view.cpp:185-205 | destroys exactly a known node that is no screen, freeing its path |
| LiveDocuments.LiveDocument.BuildScreenRoot | gui/brookesia_gui_interface/src/runtime_screen.cpp:178-193 | builds a screen and lists its root; a failed build lists nothing |
| LiveDocuments.LiveDocument.EnsureScreenRoot | gui/brookesia_gui_interface/src/runtime_screen.cpp:160-195 | only a dynamic screen without a root is built; the path index stays a bijection with all roots listed exactly when the build succeeds or stores nothing, the latter always for a failed build of a screen without children |
| LiveDocuments.LiveDocument.DropScreenRoot | gui/brookesia_gui_interface/src/runtime_subtree.cpp:396-400 | a dynamic screen's tree is destroyed and its root forgotten |
| LiveDocuments.LiveDocument.UnmountMountedScreen | gui/brookesia_gui_interface/src/runtime_subtree.cpp:379-401 | destroys the tree of a dynamic screen and leaves an eager one |
| LiveDocuments.LiveDocument.Rebuild | gui/brookesia_gui_interface/src/runtime_view.cpp:353-470 | the tear-down and rebuild of an update: on success every wanted screen, and no other, is completely built; with invalid resources or a refused image pass the document is empty; a failure part-way keeps all invariants and is one refused request or the end of the uids |
| LiveDocuments.ReloadWithoutUids | gui/brookesia_gui_interface/src/runtime_subtree.cpp:83-84 | once the uids have run out, an in-place reload leaves no node and no uids, against the advice of the error message |
| LiveDocuments.LiveDocument.RebuildEager | gui/brookesia_gui_interface/src/runtime_view.cpp:403-443 | eager screens are built in document order; the first failure ends it |
| LiveDocuments.LiveDocument.RebuildInstantiated | gui/brookesia_gui_interface/src/runtime_view.cpp:445-470 | dynamic screens that were there and still exist are built again |
| DocumentRuns.Perform | gui/brookesia_gui_interface/src/runtime_view.cpp:45-205 | every step does what it is for, completely when the backend refuses nothing and uids are left; it keeps all invariants and, unless a screen build fails, the bijective path index with all roots listed |
| DocumentRuns.Run | gui/brookesia_gui_interface/src/runtime_subtree.cpp:83-460 | over every run all invariants hold, whatever fails, and every step does what it is for; unless a screen build failed since the last reload the path index is a bijection and the parentless nodes are the listed screen roots; where the backend refused nothing and the uids lasted, none failed |
| DocumentRuns.PerformBeside | gui/brookesia_gui_interface/src/runtime_subtree.cpp:10-460 | a step of one document does what it is for and leaves another one on the same backend valid |
| DocumentRuns.RunBoth | gui/brookesia_gui_interface/src/runtime_subtree.cpp:10-460 | two documents taking turns on one backend both stay valid, never share a handle, and each does its steps while the other stays as it is |
| LiveDocuments.RootPathFree | gui/brookesia_gui_interface/src/runtime_view.cpp:413-450 | a screen that has no root has a free path |
| HotReload.BeforeIsStrictOrder | gui/brookesia_gui_interface/src/runtime_view.cpp:338-349 | the comparison handed to the sort is a strict order whose ties differ at most in the template |
| HotReload.CaptureDynamicInstances | gui/brookesia_gui_interface/src/runtime_view.cpp:206-239 | one snapshot for each live template instance with a live parent |
| HotReload.CapturedExactly | gui/brookesia_gui_interface/src/runtime_view.cpp:206-239 | captured are exactly the dynamic nodes with a live parent; a snapshot holds the template, the parent path, the path of the instance and its place among the children |
| HotReload.NestedComesLater | gui/brookesia_gui_interface/src/runtime_view.cpp:338-349 | an instance nested in another one sorts strictly after it |
| HotReload.SiblingsKeepOrder | gui/brookesia_gui_interface/src/runtime_view.cpp:206-239 | instances under one parent sort by their position among its children |
| HotReload.SortedOrder | gui/brookesia_gui_interface/src/runtime_view.cpp:338-349 | in every sorted order enclosing instances come first and siblings keep their order |
| HotReload.RebuiltPaths | gui/brookesia_gui_interface/src/runtime_view.cpp:403-470 | the index of a rebuilt document holds exactly the paths of its screens as their definitions render them |
| HotReload.PathsAfterStep | gui/brookesia_gui_interface/src/runtime_view.cpp:472-483 | one more creation, finished or not, adds only paths of that instance, and all of them when it succeeds |
| HotReload.ReplayOne | gui/brookesia_gui_interface/src/runtime_view.cpp:472-483 | a snapshot is refused exactly when the guard of create_view says so, and a refusal changes nothing |
| HotReload.Replay | gui/brookesia_gui_interface/src/runtime_view.cpp:472-483 | replaying goes on past refusals and failures; it tries every snapshot whose template, parent and name are there, and what it created stays in creation order |
| HotReload.SurvivorCreated | gui/brookesia_gui_interface/src/runtime_view.cpp:472-483 | an instance that survives is created whatever happens to the others, unless its build or one around it fails |
| HotReload.SiblingsBackInOrder | gui/brookesia_gui_interface/src/runtime_view.cpp:219-236 | instances that were siblings and came back are siblings in the same order |
| HotReload.Update | gui/brookesia_gui_interface/src/runtime_view.cpp:263-483 | after a whole update each instance whose template is there, whose name is free and whose parent is static or in a surviving instance is back below its old parent path, unless its build or one around it failed; siblings keep their order; the failed builds are as many as the refused requests while the uids last, so with valid resources and without a refusal every such instance is back |
| ImageLedger.WithReferenceView | gui/brookesia_gui_interface/src/runtime_document.cpp:499-536 | taking a reference raises one count of one image, adding its record on first use |
| ImageLedger.WithoutReferenceView | gui/brookesia_gui_interface/src/runtime_document.cpp:611-649 | dropping references lowers one owner's counts and removes the record with the last one |
| ImageLedger.ReleaseUndoesAcquire | gui/brookesia_gui_interface/src/runtime_document.cpp:759-795 | giving back the first n images of a batch leaves the rest held, giving back all restores every count |
| ImageLedger.RollbackExact | gui/brookesia_gui_interface/src/runtime_document.cpp:759-795 | a failed batch restores every count and record; it restores the preload flags exactly when no resource it took would have raised one |
| ImageLedger.AutomaticStaysOnce | gui/brookesia_gui_interface/src/runtime_document.cpp:551-560 | under the "already held" guards an automatic count never exceeds one |
| ImageLedger.AutomaticUndone | gui/brookesia_gui_interface/src/runtime_resources.cpp:471-486 | an automatic reference taken and given back leaves every count |
| ImageLedger.ResidencyUnique | gui/brookesia_gui_interface/src/runtime_document.cpp:499-536 | the ledgers determine what is resident |
| ImageLedger.ImageRuntime.PreloadForTree | gui/brookesia_gui_interface/src/runtime_document.cpp:499-536 | the backend is asked only for an image without a record; a refusal leaves ledger and residency as they were |
| ImageLedger.ImageRuntime.ReleaseFromTree | gui/brookesia_gui_interface/src/runtime_document.cpp:611-649 | the backend lets go exactly with the last reference |
| ImageLedger.ImageRuntime.ReleaseTree | gui/brookesia_gui_interface/src/runtime_document.cpp:710-718 | every record and its residency end |
| ImageLedger.SameCacheExactly | gui/brookesia_gui_interface/src/runtime_document.cpp:440-445 | two images are one to the cache exactly when they have the same file, or both none and the same native id |
| ImageLedger.CollectedLists | gui/brookesia_gui_interface/src/runtime_document.cpp:407-440 | a document's images and the global ones are listed once per cache key, preloaded when any image of that key is to be |
| ImageLedger.CollectImageResources | gui/brookesia_gui_interface/src/runtime_document.cpp:407-440 | the in-place collection computes that list, whose images are pairwise different |
| ImageLedger.ImageRuntime.PreloadTree | gui/brookesia_gui_interface/src/runtime_document.cpp:537-550 | on an empty ledger, all collected preload images are held once automatically, or after a failure none is held |
| ImageLedger.ImageRuntime.PreloadForNodes | gui/brookesia_gui_interface/src/runtime_document.cpp:561-610 | the images of the nodes built are held once automatically, up to the first refusal |
| ImageLedger.ImageRuntime.LoadDocument | gui/brookesia_gui_interface/src/runtime_document.cpp:154-406 | a loaded document gets a fresh id and holds its preload images and those its nodes need, each once; a failure leaves ledgers and residency as they were; a valid document fails only if the backend refused an image |
| ImageLedger.ImageRuntime.ReloadDocument | gui/brookesia_gui_interface/src/runtime_view.cpp:355-470 | an in-place update lets everything go and takes it again; a refused list leaves the document without images, a refused node with some of them |
| ImageLedger.ImageRuntime.UnloadDocument | gui/brookesia_gui_interface/src/runtime_document.cpp:847-874 | a document leaves with all its records and their residency, the others keep theirs |
| ImageLedger.NothingLeft | gui/brookesia_gui_interface/src/runtime_document.cpp:847-874 | with the last document nothing is resident |
| ImageRuns.Perform | gui/brookesia_gui_interface/src/runtime_document.cpp:154-874 | every step does what it is for, completely when the backend refuses nothing; loads and unloads alone change which documents have ledgers; ledgers, residency and automatic counts of at most one are kept |
| ImageRuns.Run | gui/brookesia_gui_interface/src/runtime_document.cpp:154-874 | from a fresh runtime, over every sequence of loads, unloads, reloads, builds, manual preloads and releases, registrations and source changes, whatever is refused: every step does what it is for, counts and residency agree, automatic counts are at most one, exactly the loaded documents have ledgers, and nothing is resident when none is loaded |
| ImageLedger.ImageRuntime.EnsurePreloaded | gui/brookesia_gui_interface/src/runtime_document.cpp:551-560 | takes an automatic reference only when wanted and not held |
| ImageLedger.ImageRuntime.UpdateImageSource | gui/brookesia_gui_interface/src/runtime_document.cpp:671-709 | takes the new image before letting the old one go; a failure changes nothing |
| ImageLedger.ImageRuntime.RefreshImageReferences | gui/brookesia_gui_interface/src/runtime_resources.cpp:377-430 | nodes showing an image gain the automatic references they lack, nothing held changes, all are held unless the backend refuses |
| ImageLedger.GrownRelease | gui/brookesia_gui_interface/src/runtime_resources.cpp:377-430 | a manual release never takes back what a refresh added |
| ImageLedger.ImageRuntime.PreloadImages | gui/brookesia_gui_interface/src/runtime_document.cpp:759-795 | takes all, or restores every count and the residency exactly; after taking all, the nodes showing a listed image hold all they show unless the backend refuses |
| ImageLedger.ImageRuntime.ReleasePreloadedImages | gui/brookesia_gui_interface/src/runtime_document.cpp:796-822 | nothing is released unless every id resolves; then each listed reference goes, and only refreshed nodes take images back |
| ImageLedger.HeldAfterReleases | gui/brookesia_gui_interface/src/runtime_document.cpp:813-820 | an image is held after a list of releases exactly when a reference remains or the first release of an id found it missing for a node showing that id |
| ImageLedger.ReleasedTwice | gui/brookesia_gui_interface/src/runtime_document.cpp:813-820 | listing an image twice in one call leaves the node showing it without the image, two calls do not |
| ImageLedger.BatchesStayOnce | gui/brookesia_gui_interface/src/runtime_document.cpp:759-822 | lists taken or given back, with the refresh after them, keep automatic counts at one at most |
| ImageLedger.ImageRuntime.RegisterImage | gui/brookesia_gui_interface/src/runtime_resources.cpp:431-510 | all affected documents switch to the new image, then refresh, or none does, and a failure leaves counts, residency and table; unless the backend refuses, everything their nodes show is held afterwards |
| ImageLedger.ImageRuntime.UnregisterImage | gui/brookesia_gui_interface/src/runtime_resources.cpp:511-526 | the image's record disappears from every document, which then gains only what its nodes still show, and all of it unless the backend refuses |
| BindingBatch.MergeMaskIsUnion | gui/brookesia_gui_interface/src/runtime_binding.cpp:806-822 | merging a target into the masks is the union of mask bits in its domain |
| BindingBatch.UnshadowedKeepsLast | gui/brookesia_gui_interface/src/runtime_binding.cpp:894-905 | every update is followed in the coalesced batch by one for the same path and key, itself when it is the last |
| BindingBatch.UnshadowedOnce | gui/brookesia_gui_interface/src/runtime_binding.cpp:894-905 | no path and key survives coalescing twice |
| BindingBatch.CoalescedStore | gui/brookesia_gui_interface/src/runtime_binding.cpp:906-912 | dropping shadowed writes leaves the same store contents |
| BindingBatch.CoalescedFields | gui/brookesia_gui_interface/src/runtime_binding.cpp:916-970 | dropping shadowed updates leaves the same node fields when each is rewritten by its shadowing update |
| BindingBatch.SequentialIs | gui/brookesia_gui_interface/src/runtime.cpp:420-434 | applying to the backend after every update or once at the end shows the same final values |
| BindingBatch.KeptIsSame | gui/brookesia_gui_interface/src/runtime_binding.cpp:883-1016 | coalescing changes no final field value exactly when, for every field whose last writer is shadowed, the last unshadowed writer gives it the same value |
| BindingBatch.BatchEqualsSequentialExactly | gui/brookesia_gui_interface/src/runtime_binding.cpp:883-1016 | a batch is the one-at-a-time run from every state exactly under that condition |
| BindingBatch.BatchEqualsSequential | gui/brookesia_gui_interface/src/runtime_binding.cpp:883-1016 | store, node fields and backend end as with single updates whenever shadowing updates rewrite what they shadow |
| BindingBatch.AcceptedIsOverwritten | gui/brookesia_gui_interface/src/runtime_binding.cpp:963-970 | that is so whenever every bound field accepts every value |
| BindingBatch.BatchStoreEqualsSequential | gui/brookesia_gui_interface/src/runtime_binding.cpp:906-912 | store contents agree even when values are rejected |
| BindingBatch.FieldsMeanBatch | gui/brookesia_gui_interface/src/runtime_binding.cpp:894-970 | after a batch a field holds the value of the last unshadowed update that is addressed to its node, carries the key of a binding of that field and is accepted by it; a field no such update sets is as before |
| BindingBatch.StoreMeansRun | gui/brookesia_gui_interface/src/runtime_binding.cpp:906-912 | a store key the updates name holds the value of the last one naming it, every other key is as before |
| BindingBatch.ShownMeansBatch | gui/brookesia_gui_interface/src/runtime_binding.cpp:971-999 | the backend has the final values of everything a field that was set sends, and nothing else was sent |
| BindingBatch.BatchMeans | gui/brookesia_gui_interface/src/runtime_binding.cpp:883-1016 | so a batch as a whole, stated over bindings, keys and node paths |
| BindingBatch.WriteMeans | gui/brookesia_gui_interface/src/runtime_binding.cpp:922-970 | one update changes exactly the fields of its node that are bound to its key and accept its value |
| BindingBatch.AnnouncementsMean | gui/brookesia_gui_interface/src/runtime_binding.cpp:1003-1016 | announced are, in order, the unshadowed updates whose value the store still holds |
| BindingBatch.LostUpdate | gui/brookesia_gui_interface/src/runtime_binding.cpp:894-970 | a later value that the fields reject still shadows an accepted one: the batch loses it, single updates keep it |
| BindingBatch.RejectedFinalValue | gui/brookesia_gui_interface/src/runtime_binding.cpp:894-970 | such a pair of updates exists |
| BindingBatch.AnnouncedIsFinal | gui/brookesia_gui_interface/src/runtime_binding.cpp:1003-1016 | what is announced is the value the whole batch ends with |
| BindingBatch.AnnouncedOnce | gui/brookesia_gui_interface/src/runtime_binding.cpp:1003-1016 | each path and key is announced at most once |
| BindingBatch.AnnouncedAll | gui/brookesia_gui_interface/src/runtime_binding.cpp:1003-1016 | with paths free of the key mark every path and key of the batch is announced, with its last value |
| BindingBatch.MarkDirtyOk | gui/brookesia_gui_interface/src/runtime_binding.cpp:971-981 | one entry per written node, holding the union of its fields' masks |
| BindingBatch.DirtyReachesTouched | gui/brookesia_gui_interface/src/runtime_binding.cpp:993-999 | applying each dirty node once reaches exactly the backend slots of the written fields |
| BindingBatch.BindingRuntime.WriteStore | gui/brookesia_gui_interface/src/runtime_binding.cpp:906-912 | the store ends with the last value per path and key |
| BindingBatch.BindingRuntime.ApplyUpdate | gui/brookesia_gui_interface/src/runtime_binding.cpp:922-992 | writes exactly the accepting fields of its node that a binding ties to its key, and marks the node |
| BindingBatch.BindingRuntime.ApplyUpdates | gui/brookesia_gui_interface/src/runtime_binding.cpp:916-992 | all surviving updates in order, and the exact dirty list |
| BindingBatch.BindingRuntime.ReapplyMasks | gui/brookesia_gui_interface/src/runtime_binding.cpp:779-805 | shows exactly the slots of the masks plus the two couplings between image source, size and transform |
| BindingBatch.BindingRuntime.ReapplyDomain | gui/brookesia_gui_interface/src/runtime_binding.cpp:748-778 | a single target shows what merged masks of that target alone would |
| BindingBatch.BindingRuntime.ReapplyDirty | gui/brookesia_gui_interface/src/runtime_binding.cpp:993-999 | every dirty node once |
| BindingBatch.BindingRuntime.Announce | gui/brookesia_gui_interface/src/runtime_binding.cpp:1003-1016 | an update is announced unless the store has moved on |
| BindingBatch.BindingRuntime.SetBindingValues | gui/brookesia_gui_interface/src/runtime_binding.cpp:883-1016 | after the four passes store, fields, backend and announcements are what the last unshadowed updates of each field, key and node make them |
| DataStore.ListedWithBucket | gui/brookesia_gui_interface/src/data_store.cpp:186-241 | replacing a bucket changes the sum of bucket sizes by the difference |
| DataStore.SubscribedOk | gui/brookesia_gui_interface/src/data_store.cpp:186-201 | subscribing keeps count, non-empty buckets, unique ids and active flags in agreement |
| DataStore.UnsubscribedOk | gui/brookesia_gui_interface/src/data_store.cpp:216-241 | so does unsubscribing; an unknown id changes nothing |
| DataStore.ForgottenOk | gui/brookesia_gui_interface/src/data_store.cpp:243-269 | forgetting removes exactly the values and buckets the document owns |
| DataStore.RunOk | gui/brookesia_gui_interface/src/data_store.cpp:122-269 | the tables agree after every run of re-entrant calls and notification turns |
| DataStore.CalledAtMostOnce | gui/brookesia_gui_interface/src/data_store.cpp:122-157 | over every run a notification calls a listener at most once and only with the key it subscribed to |
| DataStore.CallWasDue | gui/brookesia_gui_interface/src/data_store.cpp:145-156 | every call of every run was made while the listener was active and the key held the announced value |
| DataStore.SilencedForever | gui/brookesia_gui_interface/src/data_store.cpp:143-156 | a listener once unsubscribed or forgotten is never called again, not even by notifications under way |
| DataStore.ForgetSilences | gui/brookesia_gui_interface/src/data_store.cpp:243-269 | after forgetting a document no listener of its keys is called again |
| DataStore.StaleStaysSilent | gui/brookesia_gui_interface/src/data_store.cpp:145-152 | a notification whose value was overwritten says nothing more unless that very value is written back |
| DataStore.QuietTurns | gui/brookesia_gui_interface/src/data_store.cpp:143-157 | left alone, a notification calls its whole snapshot in order and ends |
| DataStore.QuietNotification | gui/brookesia_gui_interface/src/data_store.cpp:122-157 | a notification begun and left alone calls the key's whole bucket in order and is gone |
| DataStore.EveryListenerIsCalled | gui/brookesia_gui_interface/src/data_store.cpp:132-156 | over every run, while the key keeps the announced value, each listener of the bucket at the begin that is still active at its turn is called then, once, whatever happens to the others |
| DataStore.EndsInTime | gui/brookesia_gui_interface/src/data_store.cpp:143-157 | such a notification is over after exactly one turn for each of those listeners and one more |
| DataStore.TurnsInOrder | gui/brookesia_gui_interface/src/data_store.cpp:143-157 | listeners earlier in the bucket have their turns earlier |
| DataStore.RunInOrder | gui/brookesia_gui_interface/src/data_store.cpp:186-201 | over every run a bucket lists its listeners in the order they subscribed |
| DataStore.StaleNeverBegins | gui/brookesia_gui_interface/src/data_store.cpp:122-131 | announcing a value the key does not hold does nothing, wherever in a run |
| DataStore.SubscribedHolds | gui/brookesia_gui_interface/src/data_store.cpp:186-201 | subscribing adds one listener to one key and leaves all others |
| DataStore.UnsubscribedHolds | gui/brookesia_gui_interface/src/data_store.cpp:216-241 | unsubscribing takes one listener away and leaves all others |
| DataStore.ForgottenHolds | gui/brookesia_gui_interface/src/data_store.cpp:243-269 | forgetting takes away the listeners and values of the document's keys and leaves all others |
| DataStore.StepIsMeant | gui/brookesia_gui_interface/src/data_store.cpp:97-269 | every step of a run, re-entrant calls and notification turns included, changes exactly the values, listeners, notifications and calls it should |
| DataStore.MemoryDataStore.SetStringSilent | gui/brookesia_gui_interface/src/data_store.cpp:107-111 | writes one value, tells nobody |
| DataStore.MemoryDataStore.Subscribe | gui/brookesia_gui_interface/src/data_store.cpp:186-201 | appends a fresh id to the key's bucket |
| DataStore.MemoryDataStore.Unsubscribe | gui/brookesia_gui_interface/src/data_store.cpp:216-241 | removes the record wherever it is and drops an emptied bucket |
| DataStore.MemoryDataStore.ForgetDocument | gui/brookesia_gui_interface/src/data_store.cpp:243-269 | the two loops leave exactly the forgotten store |
| DataStore.MemoryDataStore.NotifyStringIfValue | gui/brookesia_gui_interface/src/data_store.cpp:122-157 | with listeners that call nothing back the whole bucket is called in order, or nobody when the value has moved on |
| DataStore.MemoryDataStore.SetString | gui/brookesia_gui_interface/src/data_store.cpp:97-105 | writes and then calls the whole bucket |
| StyleCascade.MergeAssociative | gui/brookesia_gui_interface/src/runtime_style.cpp:136-148 | merging layers is associative |
| StyleCascade.MergeIdentity | gui/brookesia_gui_interface/src/runtime_style.cpp:136-148 | the empty style set is its identity |
| StyleCascade.FoldedConcat | gui/brookesia_gui_interface/src/runtime_style.cpp:149-209 | merging a list of layers is a monoid action |
| StyleCascade.LastSetterWins | gui/brookesia_gui_interface/src/runtime_style.cpp:10-209 | for every field, state and part the composed value is that of the last layer setting it, and unset when none does |
| StyleCascade.NodeWins | gui/brookesia_gui_interface/src/runtime_style.cpp:200-208 | what the node sets itself is what it gets |
| StyleCascade.MergeStates | gui/brookesia_gui_interface/src/runtime_style.cpp:139-141 | the state loop merges name by name |
| StyleCascade.MergeStyleSetLayer | gui/brookesia_gui_interface/src/runtime_style.cpp:136-148 | base, states and parts are merged, parts state by state |
| StyleCascade.MergeBase | gui/brookesia_gui_interface/src/runtime_style.cpp:153-180 | built-in all, built-in type, theme all, theme type, in this order |
| StyleCascade.MergeRefs | gui/brookesia_gui_interface/src/runtime_style.cpp:182-198 | references in order, the document's own style before the theme's |
| StyleCascade.ComposeStyleSet | gui/brookesia_gui_interface/src/runtime_style.cpp:149-209 | the composed style is the fold of all layers |
| StyleCascade.ResolvedEverywhere | gui/brookesia_gui_interface/src/runtime_resources.cpp:105-120 | resolving colours reaches every place of a style set and changes colour fields only |
| StyleCascade.ResolveCommutes | gui/brookesia_gui_interface/src/runtime_resources.cpp:73-120 | resolving the composed style is composing the resolved layers |
| FontChain.ChainIsBreadthFirst | gui/brookesia_gui_interface/src/runtime_style.cpp:456-473 | on every graph, cyclic or dangling, each registered font reachable over one or more edges is listed once, nothing else is, and no farther font before a nearer one |
| FontChain.ChainInMentionOrder | gui/brookesia_gui_interface/src/runtime_style.cpp:456-473 | equally near fonts come in the order in which the requested font and then the fonts of the chain first mention them |
| FontChain.SelfInChain | gui/brookesia_gui_interface/src/runtime_style.cpp:456-473 | the requested font is among its own fallbacks exactly when it lies on a cycle |
| FontChain.Explore | gui/brookesia_gui_interface/src/runtime_style.cpp:458-473 | the worklist order is by depth, and what it finds is closed under fallback edges |
| FontChain.Search | gui/brookesia_gui_interface/src/runtime_style.cpp:456-473 | the loop terminates and lists the sources of exactly that chain |
| FontChain.ResolveFontChain | gui/brookesia_gui_interface/src/runtime_style.cpp:434-473 | an unknown font gives nothing, a known one its data and the sources of every registered font reachable from it, each once, in breadth-first order |
| FontChain.FontForIs | gui/brookesia_gui_interface/src/runtime_style.cpp:434-473 | the fallback sources of a known font are those of the registered fonts reachable from it, each once, nearest first and equally near ones in order of mention |
| StyleCache.ResolveReads | gui/brookesia_gui_interface/src/runtime_style.cpp:387-502 | resolving depends on the document's theme, the fonts and the default of its language only |
| StyleCache.ComposedMeans | gui/brookesia_gui_interface/src/runtime_style.cpp:387-433 | before colours are resolved a field has, at every place, what the highest of its sources sets there, and nothing when none sets it |
| StyleCache.LooksAreMeant | gui/brookesia_gui_interface/src/runtime_style.cpp:387-433 | of the resolved style: a reference the document's theme knows shows the theme's colour, every other value is that of the highest source setting it |
| StyleCache.FontIsMeant | gui/brookesia_gui_interface/src/runtime_style.cpp:474-502 | the font is the one asked for, else the language's default when that is registered, else the one called default |
| StyleCache.StyleIsMeant | gui/brookesia_gui_interface/src/runtime_style.cpp:387-502 | both together, for every node, document and table |
| StyleCache.ThemeLoadNoticed | gui/brookesia_gui_interface/src/runtime_resources.cpp:10-25 | a theme id can be reloaded unnoticed, whatever it holds, exactly when the document uses another theme |
| StyleCache.DefaultFontNoticed | gui/brookesia_gui_interface/src/runtime_resources.cpp:341-368 | a default font can be set unnoticed exactly when it is for another language or is the font chosen already |
| StyleCache.FontChangeNoticed | gui/brookesia_gui_interface/src/runtime_style.cpp:572-589 | the font table can change unnoticed exactly when every font a node can name resolves as before |
| StyleCache.AskTwice | gui/brookesia_gui_interface/src/runtime_style.cpp:530-571 | after a change that advances no revision the cached answer is given again; it is right exactly when the change does not concern the node |
| StyleCache.StaleTheme | gui/brookesia_gui_interface/src/runtime_resources.cpp:10-25 | from a fresh runtime: reloading a theme in use that is not current leaves the old look in the cache |
| StyleCache.NextRevision | gui/brookesia_gui_interface/src/runtime_view_properties.cpp:776-793 | revisions grow and never have zero low bits |
| StyleCache.AppliedTags.AdvanceStyleRevision | gui/brookesia_gui_interface/src/runtime_view_properties.cpp:776-793 | at the 32-bit wrap every record is marked unapplied, so tags stay exact |
| StyleCache.AppliedTags.ReapplyStyleRecord | gui/brookesia_gui_interface/src/runtime_view.cpp:575-602 | a record whose style has been applied is skipped exactly when that was at the current revision |
| StyleCache.SameLook | gui/brookesia_gui_interface/src/private/runtime_impl.hpp:184-194 | without a style binding, whatever the instance binds, its style inputs are the definition's |
| StyleCache.LookIsWritten | gui/brookesia_gui_interface/src/private/runtime_impl.hpp:184-194 | the instance's look has the bound paths below style, stateStyles and partStyles written in order, and no other |
| StyleCache.StyleRuntime.InternResolvedStyle | gui/brookesia_gui_interface/src/runtime_style.cpp:503-529 | an equal live style is shared, otherwise a new one is added; live interned styles stay pairwise different |
| StyleCache.StyleRuntime.RefreshCaches | gui/brookesia_gui_interface/src/runtime_style.cpp:535-552 | a new revision empties every document's caches |
| StyleCache.StyleRuntime.ResolveStyleShared | gui/brookesia_gui_interface/src/runtime_style.cpp:530-571 | while the caches are coherent the shared style equals a fresh resolve and shows, place by place, what its sources, the colours of the theme and the fonts make it; under an unchanged revision a cached answer is given again |
| StyleCache.StyleRuntime.StyleOfNewNode | gui/brookesia_gui_interface/src/runtime_subtree.cpp:93-94 | so it does for a built instance, which shares the cached style of its definition unless one of its bindings can change the look |
| StyleCache.StyleRuntime.Update | gui/brookesia_gui_interface/src/runtime_view.cpp:353-379 | a reload advances the revision and empties the document's caches |
| StyleCache.StyleRuntime.LoadTheme | gui/brookesia_gui_interface/src/runtime_resources.cpp:10-25 | the cache stays right when the theme is current or no loaded document uses it |
| StyleCache.StyleRuntime.SetDefaultFontForLanguage | gui/brookesia_gui_interface/src/runtime_resources.cpp:341-368 | the cache stays right when the language is current or no loaded document uses it |
| StyleCache.StyleRuntime.RefreshGlobalFontsFromBackend | gui/brookesia_gui_interface/src/runtime_style.cpp:572-589 | the cache stays right when every font a node can name resolves as before |
| StyleCache.StyleRuntime.RegisterFont | gui/brookesia_gui_interface/src/runtime_resources.cpp:240-248 | always leaves the cache right |
| StyleCache.StyleRuntime.UnregisterFont | gui/brookesia_gui_interface/src/runtime_resources.cpp:250-268 | always leaves the cache right |
| Json.MergedGets | gui/brookesia_gui_interface/src/parser_json.cpp:288-304 | a merged object holds, key by key, the merge of both or the one there is |
| Json.SourceWins | gui/brookesia_gui_interface/src/parser_json.cpp:288-304 | along any path of keys a value of the source replaces what was there, objects are merged, and where the source says nothing the value stays |
| Json.SpellingAgrees | gui/brookesia_gui_interface/src/parser_json.cpp:123-143 | among camel-case keys, looking up by spelling is looking up exactly |
| Json.DefaultsGet | gui/brookesia_gui_interface/src/parser_node.cpp:687-699 | filling in defaults keeps every own value and adds the missing ones |
| Json.FindsItself | gui/brookesia_gui_interface/src/parser_json.cpp:123-143 | a lookup by spelling is an exact lookup as soon as no other key answers to the spelling |
| Json.DefaultsAreMerge | gui/brookesia_gui_interface/src/parser_node.cpp:687-699 | filling defaults into an object and merging the object over the defaults give the same value when at no level a default finds another key |
| Json.DefaultsAreMergeExactly | gui/brookesia_gui_interface/src/parser_node.cpp:687-699 | for objects that spell no key twice themselves, they agree exactly then |
| Json.CamelFits | gui/brookesia_gui_interface/src/parser_node.cpp:687-699 | camel-case objects always meet the condition |
| Json.AmbiguousAgrees | gui/brookesia_gui_interface/src/parser_node.cpp:687-699 | an object that spells a key twice can agree by its values alone |
| Json.DigitSpelling | gui/brookesia_gui_interface/src/parser_json.cpp:123-143 | the keys a1 and a_1 have different normal forms and are mixed up all the same |
| Json.DefaultsFit | gui/brookesia_gui_interface/src/parser_node.cpp:687-699 | the condition carries over to an object already filled in with other defaults |
| Json.MixedSpelling | gui/brookesia_gui_interface/src/parser_node.cpp:687-699 | with two spellings of one key they differ |
| Json.OwnValueFirst | gui/brookesia_gui_interface/src/parser_node.cpp:687-699 | along any path an own value stays and a missing one is the default's |
| Json.MergeJson | gui/brookesia_gui_interface/src/parser_json.cpp:288-304 | the recursive loop computes the deep merge |
| Json.MergeObjectDefaults | gui/brookesia_gui_interface/src/parser_node.cpp:687-699 | the recursive loop computes the defaults merge |
| ThemeColors.FlattenWrites | gui/brookesia_gui_interface/src/parser_json.cpp:314-350 | flattening writes the leaves in order, each under its dotted path |
| ThemeColors.WalkFindsLeaf | gui/brookesia_gui_interface/src/parser_json.cpp:352-376 | walking a key sequence finds a string exactly when there is a leaf with those keys |
| ThemeColors.FlattenedIsWalkExactly | gui/brookesia_gui_interface/src/parser_json.cpp:306-376 | flattened table and path walk agree on all paths and colours exactly when every leaf below a dotted key is overwritten later or says what a leaf without such a key says |
| ThemeColors.DistinctPathsAgree | gui/brookesia_gui_interface/src/parser_json.cpp:306-376 | when no two colours share a dotted path they agree exactly when no colour lies below a dotted key |
| ThemeColors.FlattenedIsWalk | gui/brookesia_gui_interface/src/parser_json.cpp:306-376 | for keys without dots, a dotted path is flattened to a colour exactly when walking the path finds that colour |
| ThemeColors.ColorExactly | gui/brookesia_gui_interface/src/parser_json.cpp:107-121 | a colour is empty, or a hash and six hexadecimal digits of either case |
| ThemeColors.FlattenSucceeds | gui/brookesia_gui_interface/src/parser_json.cpp:314-350 | flattening succeeds exactly when every leaf is a colour and no key is empty |
| ThemeColors.DottedKeyIsLost | gui/brookesia_gui_interface/src/parser_json.cpp:306-376 | a key with a dot becomes a colour no path walk finds |
| ThemeColors.DottedKeyOverwrites | gui/brookesia_gui_interface/src/parser_json.cpp:306-376 | or overwrites the colour the walk finds |
| ThemeColors.FlattenColorConstants | gui/brookesia_gui_interface/src/parser_json.cpp:314-350 | the recursive loop computes the flattening |
| ThemeColors.ResolveConstant | gui/brookesia_gui_interface/src/parser_json.cpp:352-376 | the loop walks exactly the dot-separated segments |
| Interactions.ListsInOrder | gui/brookesia_gui_interface/src/parser_node.cpp:701-789 | events and animations are the references' lists in reference order, then the node's own |
| Interactions.AppliedExactly | gui/brookesia_gui_interface/src/parser_node.cpp:733-789 | the references can be applied exactly when each names a template and every field of it that is one of the four is of its kind there and in the node |
| Interactions.NearestLayerWins | gui/brookesia_gui_interface/src/parser_node.cpp:733-789 | along any open path the node's own value comes first, then a later reference before an earlier one |
| Interactions.OthersUntouched | gui/brookesia_gui_interface/src/parser_node.cpp:733-789 | every entry not spelled like one of the four fields, a node's id, type and children included, stays as it is |
| Interactions.FieldSpelling | gui/brookesia_gui_interface/src/parser_json.cpp:66-143 | an interaction field is found under exactly the keys that normalise to it |
| Interactions.ErasedGets | gui/brookesia_gui_interface/src/parser_node.cpp:727 | erasing an entry, which moves the last one into its place, loses that key only |
| Interactions.PrependArrayDefaults | gui/brookesia_gui_interface/src/parser_node.cpp:701-731 | the template's elements come before the node's |
| Interactions.ApplyInteractionTemplateObject | gui/brookesia_gui_interface/src/parser_node.cpp:733-767 | two object fields, then two lists |
| Interactions.ApplyInteractionTemplates | gui/brookesia_gui_interface/src/parser_node.cpp:769-789 | references are applied from the last to the first; an unknown one is an error |
| TemplateSlots.ExpandTemplateSlotsInChildren | gui/brookesia_gui_interface/src/parser_node.cpp:371-428 | succeeds exactly when every slot is well formed and no id repeats; the result is the order-preserving flat-map |
| TemplateSlots.ExpandChild | gui/brookesia_gui_interface/src/parser_node.cpp:376-424 | one child: a slot gives its replacement, a node is kept with its children filled |
| TemplateSlots.ApplyTemplateSlots | gui/brookesia_gui_interface/src/parser_node.cpp:430-453 | also fails when a provided slot is not declared |
| TemplateSlots.EveryProvidedSlotOnce | gui/brookesia_gui_interface/src/parser_node.cpp:440-450 | each provided slot is used at exactly one place |
| TemplateSlots.OverrideKeepsOutline | gui/brookesia_gui_interface/src/parser_node.cpp:330-369 | an override leaves every node's id, type and children unchanged when no key of its can be taken for one at its target |
| TemplateSlots.OverridesKeepOutline | gui/brookesia_gui_interface/src/parser_node.cpp:330-369 | so does a whole list of overrides |
| TemplateSlots.TargetDecides | gui/brookesia_gui_interface/src/parser_node.cpp:345-366 | an override changes the outline of the template exactly when it changes that of its target |
| OverrideOutline.EntriesUnnoticedExactly | gui/brookesia_gui_interface/src/parser_node.cpp:351-366 | entries under given keys leave a node's outline for all values exactly when no key can be taken for id, type or children there |
| OverrideOutline.OverrideUnnoticedExactly | gui/brookesia_gui_interface/src/parser_node.cpp:330-369 | the same for an override of any node inside a template |
| OverrideOutline.OverridesUnnoticedExactly | gui/brookesia_gui_interface/src/parser_node.cpp:330-369 | a list of overrides can never change the outline, whatever its values and however far it has been applied, exactly when each override is harmless when its turn comes |
| TemplateSlots.NothingStructuralIsHarmless | gui/brookesia_gui_interface/src/parser_node.cpp:330-369 | which is certain when no override key is spelled like id, type or children |
| TemplateSlots.OverrideReachesTarget | gui/brookesia_gui_interface/src/parser_node.cpp:330-369 | an override succeeds exactly when its target exists and it names no forbidden field |
| TemplateSlots.WriteUnnoticed | gui/brookesia_gui_interface/src/parser_node.cpp:351-366 | exactly when a written key can never be taken for a structural one |
| TemplateSlots.CapitalisedChildren | gui/brookesia_gui_interface/src/parser_node.cpp:334-366 | the override key "Children" is not forbidden and gives a childless node children |
| TemplateSlots.MergeEntries | gui/brookesia_gui_interface/src/parser_node.cpp:351-366 | objects are merged, other values replaced, forbidden names refused |
| TemplateSlots.SplitTemplatePath | gui/brookesia_gui_interface/src/parser_node.cpp:273-291 | empty parts between slashes are skipped |
| TemplateSlots.ApplyTemplateOverrides | gui/brookesia_gui_interface/src/parser_node.cpp:330-369 | the overrides one after the other, each at its target |
| TemplateMeaning.SlotsAreMeant | gui/brookesia_gui_interface/src/parser_node.cpp:371-453 | slots can be filled exactly when each has a name and a list to stand for it, no name repeats and each provided value has its slot; then every slot is replaced by the provided list, else by its own, in place, at every depth, and nothing else differs |
| TemplateMeaning.OverrideMeans | gui/brookesia_gui_interface/src/parser_node.cpp:293-369 | an override merges its fields into the first node its ids lead to; every other node of the tree stays as it is |
| TemplateMeaning.PathHasIds | gui/brookesia_gui_interface/src/parser_node.cpp:273-291 | an override path means its pieces between slashes |
| TemplateMeaning.OneMeans | gui/brookesia_gui_interface/src/parser_node.cpp:330-369 | an override that is no object, has no target or names a forbidden field is refused; any other is done |
| TemplateMeaning.OverridesAreMeant | gui/brookesia_gui_interface/src/parser_node.cpp:330-369 | overrides are done in turn up to the first that is refused, which refuses them all |
| TemplateMeaning.LastOverrideShows | gui/brookesia_gui_interface/src/parser_node.cpp:330-369 | at an override's target the parsed object has every value of it that no later override touches |
| TemplateMeaning.UntouchedStays | gui/brookesia_gui_interface/src/parser_node.cpp:330-369 | what no override touches is as slot filling left it |
| TemplateExpansion.ViewUnrolls | gui/brookesia_gui_interface/src/parser_node.cpp:455-545 | whatever is accepted is what plain expansion gives within as many levels as there are templates |
| TemplateExpansion.ViewExactly | gui/brookesia_gui_interface/src/parser_node.cpp:455-545 | a node is accepted exactly when plain expansion accepts it and never enters a template from within itself |
| TemplateExpansion.CardInCard | gui/brookesia_gui_interface/src/parser_node.cpp:470-472 | a template put into a slot of itself expands finitely and is refused all the same |
| TemplateExpansion.ReferenceIsMeant | gui/brookesia_gui_interface/src/parser_node.cpp:455-502 | a reference is refused for a wrong field, an unknown template, unfitting slots or a refused override, and as a cycle when its template is being expanded; otherwise the template under the reference's id, slots filled and overrides done, is what is parsed |
| TemplateExpansion.Parser.NestingBounded | gui/brookesia_gui_interface/src/parser_node.cpp:497-500 | the stack is duplicate-free, so nesting is bounded by the number of templates |
| TemplateExpansion.Parser.ParseTemplateRef | gui/brookesia_gui_interface/src/parser_node.cpp:455-502 | terminates for every template map, restores the stack, refuses re-entry, and gives what the reference means in terms of its template, slots and overrides |
| TemplateExpansion.Parser.ParseViewNode | gui/brookesia_gui_interface/src/parser_node.cpp:791-870 | parses a node and its children, restores the stack |
| TemplateExpansion.Parser.ParseChildNodes | gui/brookesia_gui_interface/src/parser_node.cpp:504-545 | children in order; slots and nested screens are refused |
| Screens.MountKeeps | gui/brookesia_gui_interface/src/runtime_screen.cpp:135-246 | a mount succeeds exactly when the screen can be mounted and the backend takes it, and then the table has it on its target |
| Screens.MountIsMeant | gui/brookesia_gui_interface/src/runtime_screen.cpp:104-246 | exactly the screens that hold the place make room for a mount, which succeeds when document, screen, root and display are there and the backend takes it; nothing else changes |
| Screens.UnmountIsMeant | gui/brookesia_gui_interface/src/runtime_screen.cpp:247-281 | unmounting removes exactly the places of one screen |
| Screens.TriggerOutcome | gui/brookesia_gui_interface/src/runtime_screen.cpp:461-527 | an accepted action moves the flow to what the automaton says with the new screen mounted; a refused one leaves its state |
| Screens.TriggerIsMeant | gui/brookesia_gui_interface/src/runtime_screen.cpp:461-527 | an action takes the first transition that names the state, only without one the first that names none, and is refused without either; a move unmounts the old screen, mounts the new one, and mounts the old one again after a failure |
| Screens.RefusedExactly | gui/brookesia_gui_interface/src/private/runtime_impl.hpp:593-618 | where every screen can be shown, an action is refused exactly when no transition of its name names the state or none at all |
| Screens.OldScreenRestored | gui/brookesia_gui_interface/src/runtime_screen.cpp:512-521 | after a failed move the old screen is shown again when its remount is accepted, and the flow stays in its state |
| Screens.StartIsMeant | gui/brookesia_gui_interface/src/runtime_screen.cpp:427-460 | starting mounts the initial screen; a running flow stays as it is |
| Screens.StopIsMeant | gui/brookesia_gui_interface/src/runtime_screen.cpp:528-539 | stopping forgets the flow and removes its screen from every place |
| Screens.PushIsMeant | gui/brookesia_gui_interface/src/runtime_screen.cpp:282-384 | pushing a transient screen adds one entry exactly when screen, root and display are there and the backend takes it |
| Screens.EndIsMeant | gui/brookesia_gui_interface/src/runtime_document.cpp:854-888 | ending a document removes exactly its mounts, transient screens and flows |
| Screens.RestoreIsMeant | gui/brookesia_gui_interface/src/runtime_view.cpp:520-571 | after a reload a flow goes on in its state if the definition still has it, else in the initial one |
| Screens.StepIsMeant | gui/brookesia_gui_interface/src/runtime_screen.cpp:135-566 | every step of a run changes exactly the screens shown, transient screens, flows and documents it should |
| Screens.StateIsFold | gui/brookesia_gui_interface/src/runtime_screen.cpp:461-539 | over every run the state of a flow is the automaton folded over the accepted actions |
| FlowHistory.StateIsHistory | gui/brookesia_gui_interface/src/runtime_view.cpp:520-571 | over every run, reloads of the document included, a flow that runs is where its accepted actions, starts and reloads lead; a reload keeps the state if the new definition has it and goes to the initial one otherwise |
| FlowHistory.FlowEnters | gui/brookesia_gui_interface/src/runtime_screen.cpp:427-460 | a flow that comes up was started, in the initial state, or restored by an update |
| Screens.RunOk | gui/brookesia_gui_interface/src/runtime_screen.cpp:135-566 | in every reachable state a flow's screen is the path of its state, every mount sits under its own key, and every entry names a loaded document |
| Screens.UnloadIsolates | gui/brookesia_gui_interface/src/runtime_document.cpp:847-921 | after unloading no table names the document and every entry of the others is unchanged |
| Screens.FlowsThenAll | gui/brookesia_gui_interface/src/runtime_document.cpp:854-888 | ending flows, transients and mounts one after the other removes exactly the document |
| Screens.StopOneMore | gui/brookesia_gui_interface/src/runtime_screen.cpp:554-566 | stopping one flow removes that flow and its screen's mounts |
| Screens.FirstExact | gui/brookesia_gui_interface/src/private/runtime_impl.hpp:593-608 | the first transition that names the state |
| Screens.FirstWildcard | gui/brookesia_gui_interface/src/private/runtime_impl.hpp:610-618 | the first transition that names no state |
| Screens.ScreenRuntime.UnmountScreen | gui/brookesia_gui_interface/src/runtime_screen.cpp:247-281 | removes the screen from every target it is mounted on |
| Screens.ScreenRuntime.ClearTarget | gui/brookesia_gui_interface/src/runtime_screen.cpp:104-134 | the replaced screen, or an earlier place on the same stack, goes first |
| Screens.ScreenRuntime.MountScreen | gui/brookesia_gui_interface/src/runtime_screen.cpp:135-246 | mounts as specified, moves exactly the screens in the way and keeps the invariants |
| Screens.ScreenRuntime.StartScreenFlow | gui/brookesia_gui_interface/src/runtime_screen.cpp:427-460 | starts in the initial state when its screen mounts; a running flow stays |
| Screens.ScreenRuntime.TriggerScreenFlow | gui/brookesia_gui_interface/src/runtime_screen.cpp:461-527 | takes the transition the list gives, with the old screen put back after a failure |
| Screens.ScreenRuntime.StopScreenFlow | gui/brookesia_gui_interface/src/runtime_screen.cpp:528-539 | forgets the flow and unmounts its screen |
| Screens.ScreenRuntime.StopScreenFlowsForDocument | gui/brookesia_gui_interface/src/runtime_screen.cpp:554-566 | stops exactly the document's flows |
| Screens.ScreenRuntime.PopTransientScreensForDocument | gui/brookesia_gui_interface/src/runtime_screen.cpp:400-411 | drops exactly the document's transient mounts |
| Screens.ScreenRuntime.RegisterSubscription | gui/brookesia_gui_interface/src/runtime_document.cpp:112-118 | a new subscription gets a fresh id, is owned by its document and can be disconnected |
| Screens.ScreenRuntime.UnsubscribeSubscription | gui/brookesia_gui_interface/src/runtime_document.cpp:119-138 | ends one subscription; the natural end of a view animation does the same |
| Screens.ScreenRuntime.StartEventAnimation | gui/brookesia_gui_interface/src/runtime_binding.cpp:1182-1234 | the animation running under the same key ends first, also when the backend then refuses |
| Screens.ScreenRuntime.StopEventAnimation | gui/brookesia_gui_interface/src/runtime_binding.cpp:1235-1254 | ends the animation of one key and its subscription |
| Screens.ScreenRuntime.StopEventAnimations | gui/brookesia_gui_interface/src/runtime_document.cpp:856-871 | drops exactly the document's event animations with their subscriptions |
| Screens.ScreenRuntime.ReleaseSubscriptions | gui/brookesia_gui_interface/src/runtime_document.cpp:905-920 | drops exactly the subscriptions the document owns |
| Screens.ScreenRuntime.Unload | gui/brookesia_gui_interface/src/runtime_document.cpp:847-921 | tables, animations, subscriptions and the data store lose exactly what is the document's |
| Subscriptions.RegisteredOk | gui/brookesia_gui_interface/src/runtime_document.cpp:112-118 | registering keeps ids issued once, owned ids connected, animations with the document of their key |
| Subscriptions.RegisteredMeans | gui/brookesia_gui_interface/src/runtime_document.cpp:112-118 | registering adds one subscription, owned by the document unless that is the invalid one |
| Subscriptions.StartedOk | gui/brookesia_gui_interface/src/runtime_binding.cpp:1182-1234 | so does starting an event animation, accepted or not |
| Subscriptions.StartedMeans | gui/brookesia_gui_interface/src/runtime_binding.cpp:1182-1234 | starting under a key ends exactly what ran under it, and only an accepted start puts the new subscription there |
| Subscriptions.StoppedOk | gui/brookesia_gui_interface/src/runtime_binding.cpp:1235-1254 | so does stopping one |
| Subscriptions.StoppedMeans | gui/brookesia_gui_interface/src/runtime_binding.cpp:1235-1254 | stopping ends exactly the animation of the key and its subscription |
| Subscriptions.WithoutIsolates | gui/brookesia_gui_interface/src/runtime_document.cpp:856-920 | after unloading nothing in the table is the document's and nothing of another document is gone |
| Subscriptions.StoppedThenReleased | gui/brookesia_gui_interface/src/runtime_document.cpp:856-920 | stopping the document's animations and then releasing what it still owns is forgetting the document |
| ScreenRoots.MountStepMeans | gui/brookesia_gui_interface/src/runtime_screen.cpp:104-246 | the mount table changes as mounting means |
| ScreenRoots.MountStepRoots | gui/brookesia_gui_interface/src/runtime_screen.cpp:104-246 | a mount builds a root for a dynamic screen of the document that has none, then every dynamic screen in the way loses its root |
| ScreenRoots.UnmountStepMeans | gui/brookesia_gui_interface/src/runtime_screen.cpp:247-281 | unmounting takes the root of a dynamic screen that was shown, and no other |
| ScreenRoots.PushStepMeans | gui/brookesia_gui_interface/src/runtime_screen.cpp:282-384 | pushing a transient screen builds a missing root and adds one entry exactly when screen, root and display are there and the backend takes it |
| ScreenRoots.PopStepMeans | gui/brookesia_gui_interface/src/runtime_screen.cpp:385-399 | popping a transient screen takes the root of a dynamic one, and no other |
| ScreenRoots.MountRootedExactly | gui/brookesia_gui_interface/src/runtime_screen.cpp:135-246 | mounting keeps every mounted screen on a live root exactly unless a dynamic screen is mounted after pushing itself out |
| ScreenRoots.MountTransientsExactly | gui/brookesia_gui_interface/src/runtime_screen.cpp:103-133 | and every transient screen exactly unless it pushes out a dynamic one of them |
| ScreenRoots.UnmountKeepsRooted | gui/brookesia_gui_interface/src/runtime_screen.cpp:247-281 | unmounting takes all mounts of a screen away together with its root |
| ScreenRoots.PopRootedExactly | gui/brookesia_gui_interface/src/runtime_screen.cpp:385-398 | popping a transient screen keeps mounted screens on live roots exactly when the screen is not dynamic or not mounted |
| ScreenRoots.PopTransientsExactly | gui/brookesia_gui_interface/src/runtime_screen.cpp:385-398 | and the other transient screens exactly when it is not dynamic or none of them shows it |
| ScreenRoots.PushKeepsRooted | gui/brookesia_gui_interface/src/runtime_screen.cpp:282-384 | pushing a transient screen takes no root away and gives the new one a live root |
| ScreenRoots.PushedTwice | gui/brookesia_gui_interface/src/runtime_screen.cpp:282-398 | a dynamic screen pushed twice and popped once leaves a transient screen without a root |
| ScreenRoots.UnmountTransientsExactly | gui/brookesia_gui_interface/src/runtime_screen.cpp:247-281 | unmounting keeps transient screens on live roots exactly when the screen is not dynamic, not mounted or not transient |
| ScreenRoots.RunMountsExactly | gui/brookesia_gui_interface/src/runtime_screen.cpp:135-398 | all mounted screens have live roots throughout a run exactly when no move pops a mounted dynamic screen or mounts one over itself |
| ScreenRoots.RunTransientsExactly | gui/brookesia_gui_interface/src/runtime_screen.cpp:135-398 | all transient screens have live roots throughout a run exactly when no move pops, unmounts or pushes out a dynamic screen that is still transient |
| Versions.ParseDecimalSegment | app/brookesia_app_store/src/app_store_app.cpp:207-218 | equals the decimal value capped at the largest 64-bit number |
| Versions.SaturatedExactly | app/brookesia_app_store/src/app_store_app.cpp:207-218 | a segment that is the decimal form of a number counts as this number, and as the largest 64-bit number when it is larger |
| Versions.SplitVersion | app/brookesia_app_store/src/app_store_app.cpp:220-234 | joining the segments with dots gives the version back |
| Versions.CompareVersions | app/brookesia_app_store/src/app_store_app.cpp:236-265 | the loop computes the comparison |
| Versions.CompareAntisymmetric | app/brookesia_app_store/src/app_store_app.cpp:236-265 | swapping the versions turns the answer round, on all inputs |
| Versions.CompareIsLexicographic | app/brookesia_app_store/src/app_store_app.cpp:236-265 | on all-decimal versions it is lexicographic comparison of zero-extended saturated numbers |
| Versions.CompareTransitive | app/brookesia_app_store/src/app_store_app.cpp:236-265 | there it is a total preorder |
| Versions.MixedVersionsCycle | app/brookesia_app_store/src/app_store_app.cpp:236-265 | with mixed segments it is not transitive |
| Versions.OneSegmentDecides | app/brookesia_app_store/src/app_store_app.cpp:251-262 | at the first position where three versions differ, only a segment lying in text between two decimal ones can break the order |
| Versions.TransitiveExactly | app/brookesia_app_store/src/app_store_app.cpp:236-265 | comparing three versions is transitive exactly when such a segment separates them in their order; an empty version forces the other two to be equal |
| Versions.SafeExactly | app/brookesia_app_store/src/app_store_app.cpp:236-265 | comparing is transitive on all versions made of a set of segments exactly when every segment between two decimals in text has them in numeric order |
| Versions.EmptyEqualsAll | app/brookesia_app_store/src/app_store_app.cpp:241-243 | an empty version compares equal to every version |
| Versions.PagesPartition | app/brookesia_app_store/src/app_store_app.cpp:69-90 | without wrap-around every entry is on exactly one page |
| Versions.PagesCoverExactly | app/brookesia_app_store/src/app_store_app.cpp:69-90 | every entry is on a counted page exactly when the sum does not wrap; when it wraps, no page is counted |

## Left out

- LVGL drawing, layout, animation playback and input delivery: the backend is an object that hands out fresh handles or
  refuses, deletes subtrees, and records destroy calls and refusals.
- File reading, JSON text parsing, file watching, HTTP and storage: the model starts from a JSON value and from parsed
  definitions.
- Logging, profiling and heap traces: no effect on state.
- Floating point (density scaling, aspect ratios, expressions, byte formatting): values are opaque strings.
- The per-field parsing of nodes and styles and the binding target table: fields are maps, and a predicate stands for
  everything else the parser demands of a node.
- True threads: the check before a listener call and the call itself are two atomic actions in the source and one turn here.
- Width of subscription ids, sequence numbers and handles (64 bit) and of counts; node uids and the style revision tag are
  modelled with their 32 bits.
- Failures of `apply_binding_value` that leave a half-written record, and bindings of `imageProps.src`, which also move
  preload references: a value is accepted or rejected as a whole, and image sources are treated in `ImageLedger` alone.
- The instance id of a template root is taken from its path; no other use of the override id is modelled.
- Image preloading inside `create_subtree` is a refusal that may happen at any node and is counted like a refused creation;
  its ledger effect is in `ImageLedger`.
- Which nodes reference an image, and the properties `refresh_image_references` sends to the backend: the ledger takes the
  shown images as input.
- `update` before the capture: flows are stopped and transient mounts popped first, and dynamic screens shown by them are
  gone by the time instances are captured. Restoring hidden flags and positions is not modelled.
- Re-mounting a dynamic screen on its own replace layer, and a reload during a flow trigger: what the source then does
  depends on the lifetime of map iterators.
- Mount keys are values instead of strings, which is the same as long as display ids contain no unit separator.
- Action routes, which `unload` removes by the same prefix as event animations, and event delivery to them.
- Keyboard key styles and images; what resource validation checks: whether it succeeds is an input of loads and updates.
- LiveDocuments.LiveDocument.Rebuild: document validation comes first in the source and changes nothing when it fails; only
  validated definitions are considered.
- HotReload.Update: the same, and a document that is not loaded, which the source refuses, is not a document object here.
- ImageRuns.Run: whether a document is valid and its screens can be built apart from their images, which ids resolve and
  which nodes show an image are inputs of the steps.
- HotReload.SortSnapshots: an insertion sort stands in for the library sort; the properties hold for any sorted result.
- Json.FindKey: iteration order is insertion order, as in the library; erasing moves the last entry into the gap.
- ImageLedger.ImageRuntime.RefreshImageReferences: takes the images shown by the referencing nodes as input.
- Json.DefaultsAreMergeExactly: leaves out objects that spell one key twice themselves, where agreement depends on values
  (`Json.AmbiguousAgrees`).
- Screens.MountKeeps: whether a root exists is an input there; `ScreenRoots.MountStep` decides it from the live roots.
- StyleCache.StyleRuntime.RegisterFont: argument validation and registration order are left out.
- Versions.PagesPartition: stated for totals that do not wrap around the size type; `Versions.PagesCoverExactly` says what
  happens to the others.
- Screens.ScreenRuntime.Unload: the document's own node tree and image ledger are destroyed by
  `LiveDocuments.LiveDocument.UnloadPartialTree` and `ImageLedger.ImageRuntime.UnloadDocument`.
- Screens.TriggerOutcome: a failed mount may still have removed the screen it was to replace, as in the source.
