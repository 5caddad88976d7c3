/** The mount table against the screen roots: when every mounted screen still has a live root. */
module ScreenRoots {
  import opened Screens
  import opened Text

  /** A screen of a document, by its normalised path. */
  datatype Screen = Screen(document: DocumentId, path: string)

  /** The tables, the screens that are created on mounting and destroyed on unmounting, and the screens with a root. */
  datatype World = World(tables: State, dynamic: set<Screen>, roots: set<Screen>)

  predicate Mounts(s: State, x: Screen) {
    exists k :: k in s.mounted && Shows(s.mounted[k], x.document, x.path)
  }

  predicate Holds(s: State, x: Screen) {
    exists i :: i in s.transients && s.transients[i].document == x.document && s.transients[i].path == x.path
  }

  /** Every mounted screen has a live root. */
  predicate MountsRooted(w: World) {
    forall k :: k in w.tables.mounted ==> Screen(w.tables.mounted[k].document, w.tables.mounted[k].path) in w.roots
  }

  /** Every transient screen has one, too. */
  predicate TransientsRooted(w: World) {
    forall i :: i in w.tables.transients ==>
      Screen(w.tables.transients[i].document, w.tables.transients[i].path) in w.roots
  }

  // ---- The operations ----

  /** The backend lets go of a screen; a dynamic one loses its root. */
  function Released(roots: set<Screen>, dynamic: set<Screen>, x: Screen): set<Screen> {
    if x in dynamic then roots - {x} else roots
  }

  /** The screen a mount pushes out: the one on a replaced layer, or the screen itself from its own stack. */
  function PushedOut(s: State, x: Screen, target: MountTarget): Option<Screen> {
    var key := ReplaceKey(target.display, target.layer);
    if !target.stack then
      if key in s.mounted then Some(Screen(s.mounted[key].document, s.mounted[key].path)) else None
    else if exists k :: k in s.mounted && SameStack(s.mounted[k], x.document, x.path, target) then Some(x) else None
  }

  /** A root is there, or the screen is dynamic and its root can be built. */
  predicate RootFor(w: World, x: Screen, buildable: bool) {
    x in w.roots || (x in w.dynamic && buildable)
  }

  function MountStep(w: World, document: DocumentId, path: string, target: MountTarget, buildable: bool, accepted: bool)
    : World
  {
    var x := Screen(document, NormalizePath(path));
    var found := RootFor(w, x, buildable);
    var next := Mount(w.tables, document, path, target, Outcome(found, accepted)).0;
    var normal := Mountable(w.tables, document, path, target, found);
    var built := if document in w.tables.documents && Segment(ScreenId(path))
                    && ScreenId(path) in w.tables.documents[document].screens && found then w.roots + {x} else w.roots;
    if normal.None? then w.(roots := built)
    else
      match PushedOut(w.tables, x, normal.value)
      case None => w.(tables := next, roots := built)
      case Some(out) => w.(tables := next, roots := Released(built, w.dynamic, out))
  }

  function UnmountStep(w: World, document: DocumentId, path: string): World {
    var x := Screen(document, NormalizePath(path));
    if Mounts(w.tables, x)
        then w.(tables := Unmount(w.tables, document, path), roots := Released(w.roots, w.dynamic, x)) else w
  }

  function PushStep(w: World, document: DocumentId, path: string, target: MountTarget, buildable: bool, accepted: bool)
    : World
  {
    var x := Screen(document, NormalizePath(path));
    var found := RootFor(w, x, buildable);
    var built := if document in w.tables.documents && Segment(ScreenId(path))
                    && ScreenId(path) in w.tables.documents[document].screens && found then w.roots + {x} else w.roots;
    w.(tables := Push(w.tables, document, path, target, Outcome(found, accepted)).0, roots := built)
  }

  function PopStep(w: World, id: nat): World {
    if id in w.tables.transients then
      var t := w.tables.transients[id];
      w.(tables := Pop(w.tables, id), roots := Released(w.roots, w.dynamic, Screen(t.document, t.path)))
    else w
  }

  // ---- What the operations mean for the roots ----

  /** The screen holds the place that another screen is about to take. */
  ghost predicate InTheWay(s: State, y: Screen, x: Screen, place: MountTarget) {
    exists m ::
      && Shown(s, m) && m.target.stack == place.stack && SameLayer(m.target, place)
      && y == Screen(m.document, m.path) && (place.stack ==> y == x)
  }

  ghost predicate PushesOut(s: State, y: Screen, x: Screen, target: MountTarget) {
    exists place :: GoesTo(s.displays, target, place) && InTheWay(s, y, x, place)
  }

  /** A root is built for a screen that is there; then a dynamic screen in the way loses its own. */
  ghost predicate MountedRoots(w: World, x: Screen, target: MountTarget, found: bool, roots: set<Screen>) {
    var there := HasScreen(w.tables, x.document, x.path) && found;
    forall y :: y in roots <==>
      && (y in w.roots || (y == x && there))
      && !(there && y in w.dynamic && PushesOut(w.tables, y, x, target))
  }

  lemma PushedOutIs(s: State, x: Screen, place: MountTarget)
    requires Ok(s) && NormalizePath(x.path) == x.path
    ensures forall y :: InTheWay(s, y, x, place) <==> PushedOut(s, x, place) == Some(y)
  {
    hide NormalizePath;
    forall k ensures MountOk(s, k) {
    }
    forall y ensures InTheWay(s, y, x, place) <==> PushedOut(s, x, place) == Some(y) {
      if InTheWay(s, y, x, place) {
        var m :| Shown(s, m) && m.target.stack == place.stack && SameLayer(m.target, place)
                 && y == Screen(m.document, m.path) && (place.stack ==> y == x);
        var k :| k in s.mounted && s.mounted[k] == m;
        assert MountOk(s, k);
      }
      if PushedOut(s, x, place) == Some(y) {
        WhoIsPushedOut(s, x, place);
      }
    }
  }

  lemma WhoIsPushedOut(s: State, x: Screen, place: MountTarget)
    requires Ok(s) && PushedOut(s, x, place).Some?
    ensures InTheWay(s, PushedOut(s, x, place).value, x, place)
  {
    hide NormalizePath;
    var key := ReplaceKey(place.display, place.layer);
    if !place.stack {
      assert MountOk(s, key) && Shown(s, s.mounted[key]);
    } else {
      var k :| k in s.mounted && SameStack(s.mounted[k], x.document, x.path, place);
      assert Shown(s, s.mounted[k]);
    }
  }

  /** The mount table changes as mounting means. */
  lemma MountStepMeans(w: World, document: DocumentId, path: string, target: MountTarget, buildable: bool,
                       accepted: bool)
    requires Ok(w.tables)
    ensures var x, after := Screen(document, NormalizePath(path)),
                            MountStep(w, document, path, target, buildable, accepted);
            var o := Outcome(x in w.roots || (x in w.dynamic && buildable), accepted);
            && after.dynamic == w.dynamic
            && MountMeans(w.tables, document, path, target, o, after.tables,
                          Mount(w.tables, document, path, target, o).1)
  {
    hide Ok, NormalizePath, ScreenId, NormalTarget, Segment, PushedOut, MountMeans, Mount;
    var o := Outcome(RootFor(w, Screen(document, NormalizePath(path)), buildable), accepted);
    MountIsMeant(w.tables, document, path, target, o);
    NotMountable(w.tables, document, path, target, o);
  }

  /** Then the roots are those of the screens built, without those of the screens pushed out. */
  lemma MountStepRoots(w: World, document: DocumentId, path: string, target: MountTarget, buildable: bool,
                       accepted: bool)
    requires Ok(w.tables)
    ensures var x := Screen(document, NormalizePath(path));
            MountedRoots(w, x, target, x in w.roots || (x in w.dynamic && buildable),
                         MountStep(w, document, path, target, buildable, accepted).roots)
  {
    hide Ok, NormalizePath, ScreenId, NormalTarget, GoesTo, HasScreen, Segment, InTheWay, PushedOut, Mount;
    var x := Screen(document, NormalizePath(path));
    var found := RootFor(w, x, buildable);
    var normal := NormalTarget(w.tables.displays, target);
    ScreenIs(w.tables, document, path);
    forall place ensures GoesTo(w.tables.displays, target, place) <==> normal == Some(place) {
      PlaceIs(w.tables.displays, target, place);
    }
    NormalTwice(path);
    assert Mountable(w.tables, document, path, target, found)
        == if HasScreen(w.tables, document, x.path) && found then normal else None;
    if normal.Some? {
      PushedOutIs(w.tables, x, normal.value);
      assert forall y :: PushesOut(w.tables, y, x, target) <==> InTheWay(w.tables, y, x, normal.value);
    } else {
      assert forall y :: !PushesOut(w.tables, y, x, target);
    }
  }

  lemma NotMountable(s: State, document: DocumentId, path: string, target: MountTarget, o: Outcome)
    ensures Mountable(s, document, path, target, o.built).None? ==> Mount(s, document, path, target, o) == (s, false)
  {
    hide Mountable;
  }

  lemma UnmountStepMeans(w: World, document: DocumentId, path: string)
    ensures var x, after := Screen(document, NormalizePath(path)), UnmountStep(w, document, path);
            && after.dynamic == w.dynamic && UnmountMeans(w.tables, document, path, after.tables)
            && forall y :: y in after.roots <==>
                 y in w.roots && !(y == x && x in w.dynamic &&
                                   exists m :: Shown(w.tables, m) && m.document == document && m.path == x.path)
  {
    hide NormalizePath;
    var x := Screen(document, NormalizePath(path));
    UnmountIsMeant(w.tables, document, path);
    if Mounts(w.tables, x) {
      var k :| k in w.tables.mounted && Shows(w.tables.mounted[k], x.document, x.path);
      assert Shown(w.tables, w.tables.mounted[k]);
    }
  }

  lemma PushStepMeans(w: World, document: DocumentId, path: string, target: MountTarget, buildable: bool,
                      accepted: bool)
    ensures var x, after := Screen(document, NormalizePath(path)),
                            PushStep(w, document, path, target, buildable, accepted);
            var there := HasScreen(w.tables, document, x.path) && (x in w.roots || (x in w.dynamic && buildable));
            && after.dynamic == w.dynamic
            && (forall y :: y in after.roots <==> y in w.roots || (y == x && there))
            && PushMeans(w.tables, document, path, target,
                         Outcome(x in w.roots || (x in w.dynamic && buildable), accepted), after.tables)
  {
    hide NormalizePath, ScreenId, PushMeans, Push, HasScreen, Segment;
    ScreenIs(w.tables, document, path);
    var x := Screen(document, NormalizePath(path));
    PushIsMeant(w.tables, document, path, target, Outcome(RootFor(w, x, buildable), accepted));
  }

  lemma PopStepMeans(w: World, id: nat)
    ensures var after := PopStep(w, id);
            && after.dynamic == w.dynamic && after.tables == w.tables.(transients := w.tables.transients - {id})
            && forall y :: y in after.roots <==>
                 y in w.roots && !(y in w.dynamic && id in w.tables.transients
                                   && w.tables.transients[id].document == y.document
                                   && w.tables.transients[id].path == y.path)
  {
  }

  // ---- Which operations keep which screens rooted ----

  /** What a mount would push out, when it gets as far as that. */
  function Outgoing(w: World, document: DocumentId, path: string, target: MountTarget, buildable: bool)
    : Option<Screen>
  {
    var x := Screen(document, NormalizePath(path));
    var normal := Mountable(w.tables, document, path, target, RootFor(w, x, buildable));
    if normal.None? then None else PushedOut(w.tables, x, normal.value)
  }

  /** A mount keeps mounted screens rooted exactly unless a dynamic screen is mounted after pushing itself out. */
  lemma MountRootedExactly(w: World, document: DocumentId, path: string, target: MountTarget, buildable: bool,
                           accepted: bool)
    requires MountsRooted(w)
    ensures var x := Screen(document, NormalizePath(path));
            MountsRooted(MountStep(w, document, path, target, buildable, accepted)) <==>
            !(accepted && x in w.dynamic && Outgoing(w, document, path, target, buildable) == Some(x))
  {
    hide NormalizePath, TrimSlashes, NormalTarget;
    var x, after := Screen(document, NormalizePath(path)), MountStep(w, document, path, target, buildable, accepted);
    var normal := Mountable(w.tables, document, path, target, RootFor(w, x, buildable));
    if normal.Some? && accepted {
      assert KeyOf(document, NormalizePath(path), normal.value) in after.tables.mounted;
    }
  }

  /** It keeps transient screens rooted exactly unless it pushes out a dynamic one of them. */
  lemma MountTransientsExactly(w: World, document: DocumentId, path: string, target: MountTarget, buildable: bool,
                               accepted: bool)
    requires TransientsRooted(w)
    ensures TransientsRooted(MountStep(w, document, path, target, buildable, accepted)) <==>
            (match Outgoing(w, document, path, target, buildable)
             case None => true
             case Some(out) => out !in w.dynamic || !Holds(w.tables, out))
  {
    hide NormalizePath, TrimSlashes, NormalTarget;
    var after := MountStep(w, document, path, target, buildable, accepted);
    assert after.tables.transients == w.tables.transients;
  }

  /** Unmounting takes every mount of the screen away together with its root. */
  lemma UnmountKeepsRooted(w: World, document: DocumentId, path: string)
    requires MountsRooted(w)
    ensures MountsRooted(UnmountStep(w, document, path))
  {
    hide NormalizePath;
  }

  /** It keeps transient screens rooted exactly when the screen is not dynamic, not mounted or not one of them. */
  lemma UnmountTransientsExactly(w: World, document: DocumentId, path: string)
    requires TransientsRooted(w)
    ensures var x := Screen(document, NormalizePath(path));
            TransientsRooted(UnmountStep(w, document, path)) <==>
            x !in w.dynamic || !Mounts(w.tables, x) || !Holds(w.tables, x)
  {
    hide NormalizePath;
    assert UnmountStep(w, document, path).tables.transients == w.tables.transients;
  }

  lemma PushKeepsRooted(w: World, document: DocumentId, path: string, target: MountTarget, buildable: bool,
                        accepted: bool)
    ensures MountsRooted(w) ==> MountsRooted(PushStep(w, document, path, target, buildable, accepted))
    ensures TransientsRooted(w) ==> TransientsRooted(PushStep(w, document, path, target, buildable, accepted))
  {
    hide NormalizePath, TrimSlashes, NormalTarget;
  }

  /** Popping keeps mounted screens rooted exactly when the popped screen is not dynamic or not mounted. */
  lemma PopRootedExactly(w: World, id: nat)
    requires MountsRooted(w) && id in w.tables.transients
    ensures var x := Screen(w.tables.transients[id].document, w.tables.transients[id].path);
            MountsRooted(PopStep(w, id)) <==> x !in w.dynamic || !Mounts(w.tables, x)
  {
    assert PopStep(w, id).tables.mounted == w.tables.mounted;
  }

  /** It keeps the other transient screens rooted exactly when it is not dynamic or none of them is the same screen. */
  lemma PopTransientsExactly(w: World, id: nat)
    requires TransientsRooted(w) && id in w.tables.transients
    ensures var x := Screen(w.tables.transients[id].document, w.tables.transients[id].path);
            TransientsRooted(PopStep(w, id)) <==> x !in w.dynamic || !Holds(Pop(w.tables, id), x)
  {
    assert PopStep(w, id).tables.transients == w.tables.transients - {id};
  }

  /** Pushing one dynamic screen twice and popping it once leaves a transient screen without a root. */
  lemma PushedTwice(w: World, document: DocumentId, path: string, target: MountTarget)
    requires Screen(document, NormalizePath(path)) in w.dynamic
    requires Mountable(w.tables, document, path, target, true).Some?
    ensures var once := PushStep(w, document, path, target, true, true);
            var twice := PushStep(once, document, path, target, true, true);
            !TransientsRooted(PopStep(twice, w.tables.nextTransient))
  {
    hide NormalizePath, TrimSlashes, NormalTarget;
    var once := PushStep(w, document, path, target, true, true);
    var popped := PopStep(PushStep(once, document, path, target, true, true), w.tables.nextTransient);
    assert w.tables.nextTransient + 1 in popped.tables.transients;
  }

  // ---- Runs ----

  datatype Move =
    | DoMount(document: DocumentId, path: string, target: MountTarget, buildable: bool, accepted: bool)
    | DoUnmount(document: DocumentId, path: string)
    | DoPush(document: DocumentId, path: string, target: MountTarget, buildable: bool, accepted: bool)
    | DoPop(id: nat)

  function Moved(w: World, m: Move): World {
    match m
    case DoMount(d, path, target, buildable, accepted) => MountStep(w, d, path, target, buildable, accepted)
    case DoUnmount(d, path) => UnmountStep(w, d, path)
    case DoPush(d, path, target, buildable, accepted) => PushStep(w, d, path, target, buildable, accepted)
    case DoPop(id) => PopStep(w, id)
  }

  /** The move takes no root from a mounted screen: it pops none that is mounted and mounts none over itself. */
  predicate SparesMounts(w: World, m: Move) {
    match m
    case DoMount(d, path, target, buildable, accepted) =>
      var x := Screen(d, NormalizePath(path));
      !(accepted && x in w.dynamic && Outgoing(w, d, path, target, buildable) == Some(x))
    case DoPop(id) =>
      id in w.tables.transients ==>
        var x := Screen(w.tables.transients[id].document, w.tables.transients[id].path);
        x !in w.dynamic || !Mounts(w.tables, x)
    case _ => true
  }

  /** It takes no root from a transient one: what it pushes out, unmounts or pops is not transient as well. */
  predicate SparesTransients(w: World, m: Move) {
    match m
    case DoMount(d, path, target, buildable, _) =>
      (match Outgoing(w, d, path, target, buildable)
       case None => true
       case Some(out) => out !in w.dynamic || !Holds(w.tables, out))
    case DoUnmount(d, path) =>
      var x := Screen(d, NormalizePath(path));
      x !in w.dynamic || !Mounts(w.tables, x) || !Holds(w.tables, x)
    case DoPop(id) =>
      id in w.tables.transients ==>
        var x := Screen(w.tables.transients[id].document, w.tables.transients[id].path);
        x !in w.dynamic || !Holds(Pop(w.tables, id), x)
    case _ => true
  }

  lemma MoveExactly(w: World, m: Move)
    ensures MountsRooted(w) ==> (MountsRooted(Moved(w, m)) <==> SparesMounts(w, m))
    ensures TransientsRooted(w) ==> (TransientsRooted(Moved(w, m)) <==> SparesTransients(w, m))
  {
    hide NormalizePath, MountStep, UnmountStep, PushStep, PushedOut, Mounts, Holds, NormalTarget, Outgoing,
      MountsRooted, TransientsRooted;
    match m {
      case DoMount(d, path, target, buildable, accepted) =>
        if MountsRooted(w) {
          MountRootedExactly(w, d, path, target, buildable, accepted);
        }
        if TransientsRooted(w) {
          MountTransientsExactly(w, d, path, target, buildable, accepted);
        }
      case DoUnmount(d, path) =>
        if MountsRooted(w) {
          UnmountKeepsRooted(w, d, path);
        }
        if TransientsRooted(w) {
          UnmountTransientsExactly(w, d, path);
        }
      case DoPush(d, path, target, buildable, accepted) => PushKeepsRooted(w, d, path, target, buildable, accepted);
      case DoPop(id) =>
        if MountsRooted(w) && id in w.tables.transients {
          PopRootedExactly(w, id);
        }
        if TransientsRooted(w) && id in w.tables.transients {
          PopTransientsExactly(w, id);
        }
    }
  }

  function Played(w: World, moves: seq<Move>): World
    decreases |moves|
  {
    if moves == [] then w else Played(Moved(w, moves[0]), moves[1..])
  }

  /** Every move of the run, when its turn comes, spares the mounted screens. */
  predicate AllSpareMounts(w: World, moves: seq<Move>)
    decreases |moves|
  {
    moves == [] || (SparesMounts(w, moves[0]) && AllSpareMounts(Moved(w, moves[0]), moves[1..]))
  }

  predicate AllSpareTransients(w: World, moves: seq<Move>)
    decreases |moves|
  {
    moves == [] || (SparesTransients(w, moves[0]) && AllSpareTransients(Moved(w, moves[0]), moves[1..]))
  }

  lemma PlayedTail(w: World, moves: seq<Move>, n: nat)
    requires 0 < n <= |moves|
    ensures Played(w, moves[..n]) == Played(Moved(w, moves[0]), moves[1..][..n - 1])
  {
    assert moves[..n][1..] == moves[1..][..n - 1];
  }

  /** Over a run all mounted screens have live roots at every moment exactly when every move spares them. */
  lemma {:induction false} RunMountsExactly(w: World, moves: seq<Move>)
    requires MountsRooted(w)
    ensures (forall n :: 0 <= n <= |moves| ==> MountsRooted(Played(w, moves[..n]))) <==> AllSpareMounts(w, moves)
    decreases |moves|
  {
    hide MountsRooted, Moved, SparesMounts;
    if moves == [] {
      assert Played(w, moves[..0]) == w;
    } else {
      var after, rest := Moved(w, moves[0]), moves[1..];
      MoveExactly(w, moves[0]);
      forall n | 0 < n <= |moves| ensures Played(w, moves[..n]) == Played(after, rest[..n - 1]) {
        PlayedTail(w, moves, n);
      }
      assert Played(w, moves[..1]) == after && Played(w, moves[..0]) == w;
      if MountsRooted(after) {
        RunMountsExactly(after, rest);
        assert forall n :: 0 <= n <= |rest| ==> Played(after, rest[..n]) == Played(w, moves[..n + 1]);
      }
    }
  }

  /** And all transient screens, in the same sense. */
  lemma {:induction false} RunTransientsExactly(w: World, moves: seq<Move>)
    requires TransientsRooted(w)
    ensures (forall n :: 0 <= n <= |moves| ==> TransientsRooted(Played(w, moves[..n]))) <==>
            AllSpareTransients(w, moves)
    decreases |moves|
  {
    hide TransientsRooted, Moved, SparesTransients;
    if moves == [] {
      assert Played(w, moves[..0]) == w;
    } else {
      var after, rest := Moved(w, moves[0]), moves[1..];
      MoveExactly(w, moves[0]);
      forall n | 0 < n <= |moves| ensures Played(w, moves[..n]) == Played(after, rest[..n - 1]) {
        PlayedTail(w, moves, n);
      }
      assert Played(w, moves[..1]) == after && Played(w, moves[..0]) == w;
      if TransientsRooted(after) {
        RunTransientsExactly(after, rest);
        assert forall n :: 0 <= n <= |rest| ==> Played(after, rest[..n]) == Played(w, moves[..n + 1]);
      }
    }
  }
}
