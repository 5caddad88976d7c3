/** The mount table, transient mounts and screen flows of all documents, and what unloading one of them leaves. */
module Screens {
  import DS = DataStore
  import opened Keys
  import Subs = Subscriptions
  import opened Text

  type DocumentId = nat

  datatype Option<T> = None | Some(value: T)

  datatype MountTarget = MountTarget(display: string, layer: nat, stack: bool, z: int)

  /** One screen per display and layer when replacing, one per screen when stacking. */
  datatype MountKey = ReplaceKey(display: string, layer: nat)
                    | StackKey(display: string, layer: nat, document: DocumentId, path: string)

  datatype Mounted = Mounted(document: DocumentId, path: string, target: MountTarget, sequence: nat)

  datatype Transient = Transient(document: DocumentId, path: string, target: MountTarget)

  datatype Transition = Transition(from: seq<string>, action: string, to: string)

  datatype Flow = Flow(initial: string, states: seq<string>, transitions: seq<Transition>)

  datatype Document = Document(screens: set<string>, flows: map<string, Flow>)

  datatype Running = Running(document: DocumentId, flowId: string, state: string, screen: string, target: MountTarget)

  datatype Display = Display(id: string, isDefault: bool)

  /** What the world answers to one mount: the root exists or could be built, and the backend takes the screen. */
  datatype Outcome = Outcome(built: bool, accepted: bool)

  datatype State = State(documents: map<DocumentId, Document>, mounted: map<MountKey, Mounted>, nextSequence: nat,
                         transients: map<nat, Transient>, nextTransient: nat, running: map<string, Running>,
                         displays: seq<Display>)

  // ---- Mounting ----

  function DefaultDisplay(displays: seq<Display>): Option<string> {
    if displays == [] then None
    else if exists i :: 0 <= i < |displays| && displays[i].isDefault then Some(FirstDefault(displays))
        else Some(displays[0].id)
  }

  function FirstDefault(displays: seq<Display>): string
    requires exists i :: 0 <= i < |displays| && displays[i].isDefault
  {
    if displays[0].isDefault then displays[0].id else FirstDefault(displays[1..])
  }

  function NormalTarget(displays: seq<Display>, target: MountTarget): Option<MountTarget> {
    if target.display == "" then
      match DefaultDisplay(displays)
      case None => None
      case Some(id) => Some(target.(display := id))
    else if exists i :: 0 <= i < |displays| && displays[i].id == target.display then Some(target) else None
  }

  function KeyOf(document: DocumentId, path: string, target: MountTarget): MountKey {
    if target.stack then StackKey(target.display, target.layer, document, path)
        else ReplaceKey(target.display, target.layer)
  }

  predicate Shows(m: Mounted, document: DocumentId, path: string) {
    m.document == document && m.path == path
  }

  /** Unmounting a screen removes it from every target it is mounted on. */
  function Unmounted(mounted: map<MountKey, Mounted>, document: DocumentId, path: string): map<MountKey, Mounted> {
    map k | k in mounted && !Shows(mounted[k], document, path) :: mounted[k]
  }

  predicate SameStack(m: Mounted, document: DocumentId, path: string, target: MountTarget) {
    m.target.stack && Shows(m, document, path) && m.target.display == target.display && m.target.layer == target.layer
  }

  /** What must go before a screen is mounted: the screen it replaces, or its own earlier place on the same stack. */
  function Cleared(mounted: map<MountKey, Mounted>, document: DocumentId, path: string, target: MountTarget)
    : map<MountKey, Mounted>
  {
    var key := ReplaceKey(target.display, target.layer);
    if !target.stack then
      if key in mounted then Unmounted(mounted, mounted[key].document, mounted[key].path) else mounted
    else if exists k :: k in mounted && SameStack(mounted[k], document, path, target)
    then Unmounted(mounted, document, path) else mounted
  }

  function ScreenId(path: string): string {
    TrimSlashes(NormalizePath(path))
  }

  /** The target a screen would be mounted on, when its document has it, its root is there and the display exists. */
  function Mountable(s: State, document: DocumentId, path: string, target: MountTarget,
                     built: bool): Option<MountTarget> {
    if document in s.documents && Segment(ScreenId(path)) && ScreenId(path) in s.documents[document].screens && built
    then NormalTarget(s.displays, target) else None
  }

  function Mount(s: State, document: DocumentId, path: string, target: MountTarget, o: Outcome): (State, bool) {
    var normal := Mountable(s, document, path, target, o.built);
    if normal.None? then (s, false)
    else
      var p := NormalizePath(path);
      var cleared := Cleared(s.mounted, document, p, normal.value);
      if !o.accepted then (s.(mounted := cleared), false)
      else
        var m := Mounted(document, p, normal.value, s.nextSequence);
        (s.(mounted := cleared[KeyOf(document, p, normal.value) := m], nextSequence := s.nextSequence + 1), true)
  }

  function Unmount(s: State, document: DocumentId, path: string): State {
    s.(mounted := Unmounted(s.mounted, document, NormalizePath(path)))
  }

  function Push(s: State, document: DocumentId, path: string, target: MountTarget, o: Outcome): (State, bool) {
    var normal := Mountable(s, document, path, target, o.built);
    if normal.None? || !o.accepted then (s, false)
    else
      (s.(transients := s.transients[s.nextTransient := Transient(document, NormalizePath(path), normal.value)],
          nextTransient := s.nextTransient + 1), true)
  }

  function Pop(s: State, id: nat): State {
    s.(transients := s.transients - {id})
  }

  // ---- Screen flows ----

  function ScreenPath(state: string): string {
    "/" + state
  }

  predicate Exact(t: Transition, state: string, action: string) {
    t.from != [] && t.action == action && state in t.from
  }

  predicate Wildcard(t: Transition, action: string) {
    t.from == [] && t.action == action
  }

  function FirstExact(ts: seq<Transition>, state: string, action: string): (i: nat)
    ensures i <= |ts| && (i < |ts| ==> Exact(ts[i], state, action))
    ensures forall j :: 0 <= j < i ==> !Exact(ts[j], state, action)
  {
    if ts == [] || Exact(ts[0], state, action) then 0 else 1 + FirstExact(ts[1..], state, action)
  }

  function FirstWildcard(ts: seq<Transition>, action: string): (i: nat)
    ensures i <= |ts| && (i < |ts| ==> Wildcard(ts[i], action))
    ensures forall j :: 0 <= j < i ==> !Wildcard(ts[j], action)
  {
    if ts == [] || Wildcard(ts[0], action) then 0 else 1 + FirstWildcard(ts[1..], action)
  }

  /** The automaton: the first transition that names the state, else the first that names none. */
  function Next(flow: Flow, state: string, action: string): Option<string> {
    var i, j := FirstExact(flow.transitions, state, action), FirstWildcard(flow.transitions, action);
    if i < |flow.transitions| then Some(flow.transitions[i].to)
    else if j < |flow.transitions| then Some(flow.transitions[j].to) else None
  }

  /** A running flow's screen is mounted on the flow's own layer and in its mode. */
  predicate FlowMounted(s: State, r: Running) {
    MountedAt(s, r.document, r.screen, r.target)
  }

  function Start(s: State, document: DocumentId, flowId: string, target: MountTarget, o: Outcome): (State, bool) {
    if document !in s.documents || flowId !in s.documents[document].flows then (s, false)
    else if UnitKey(document, flowId) in s.running then (s, true)
    else
      var initial := s.documents[document].flows[flowId].initial;
      var (after, ok) := Mount(s, document, ScreenPath(initial), target, o);
      if !ok then (after, false)
      else
        (after.(running := after.running[UnitKey(document, flowId) :=
                  Running(document, flowId, initial, ScreenPath(initial), target)]), true)
  }

  /** One action: unmount the old screen, mount the new one, and put the old one back when that fails. */
  function Trigger(s: State, document: DocumentId, flowId: string, action: string, o: Outcome, restore: Outcome)
    : (State, bool)
  {
    var key := UnitKey(document, flowId);
    if key !in s.running then (s, false)
    else if document !in s.documents || flowId !in s.documents[document].flows
        then (s.(running := s.running - {key}), false)
    else
      var r, next := s.running[key], Next(s.documents[document].flows[flowId], s.running[key].state, action);
      if next.None? then (s, false)
      else if next.value == r.state && FlowMounted(s, r) then (s, true)
      else
        var without := Unmount(s, document, r.screen);
        var (after, ok) := Mount(without, document, ScreenPath(next.value), r.target, o);
        if !ok then (Mount(after, document, r.screen, r.target, restore).0, false)
        else
          (after.(running := after.running[key := r.(state := next.value, screen := ScreenPath(next.value))]), true)
  }

  function Stop(s: State, document: DocumentId, flowId: string): State {
    var key := UnitKey(document, flowId);
    if key !in s.running then s
    else Unmount(s.(running := s.running - {key}), document, s.running[key].screen)
  }

  // ---- A document as a whole ----

  function DocumentFlows(running: map<string, Running>, document: DocumentId): set<string> {
    set k | k in running && UnitPrefix(document) <= k
  }

  predicate FlowScreen(s: State, flows: set<string>, document: DocumentId, m: Mounted)
    requires flows <= s.running.Keys
  {
    exists f :: f in flows && Shows(m, document, NormalizePath(s.running[f].screen))
  }

  /** Screens of a document leave the mount table when its flows stop; in the end all of them do. */
  function WithoutFlows(s: State, document: DocumentId): State {
    StoppedFlows(s, document, DocumentFlows(s.running, document))
  }

  function StoppedFlows(s: State, document: DocumentId, gone: set<string>): State
    requires gone <= s.running.Keys
  {
    s.(running := s.running - gone,
       mounted := map k | k in s.mounted && !FlowScreen(s, gone, document, s.mounted[k]) :: s.mounted[k])
  }

  function WithoutTransients(s: State, document: DocumentId): State {
    s.(transients := map i | i in s.transients && s.transients[i].document != document :: s.transients[i])
  }

  function WithoutMounts(s: State, document: DocumentId): State {
    s.(mounted := map k | k in s.mounted && s.mounted[k].document != document :: s.mounted[k])
  }

  /** Nothing of one document is left, everything of the others is as it was. */
  function WithoutDocument(s: State, document: DocumentId): State {
    var t := WithoutMounts(WithoutTransients(s, document), document);
    t.(running := t.running - DocumentFlows(t.running, document), documents := t.documents - {document})
  }

  // ---- Runs ----

  datatype Action =
    | Load(document: DocumentId, content: Document)
    | Unload(document: DocumentId)
    | EndDocument(document: DocumentId)
    | Replace(document: DocumentId, content: Document)
    | MountScreen(document: DocumentId, path: string, target: MountTarget, outcome: Outcome)
    | UnmountScreen(document: DocumentId, path: string)
    | PushTransient(document: DocumentId, path: string, target: MountTarget, outcome: Outcome)
    | PopTransient(id: nat)
    | StartFlow(document: DocumentId, flowId: string, target: MountTarget, outcome: Outcome)
    | TriggerFlow(document: DocumentId, flowId: string, action: string, outcome: Outcome, restore: Outcome)
    | StopFlow(document: DocumentId, flowId: string)
    | RestoreFlow(document: DocumentId, flowId: string, state: string, target: MountTarget, remount: bool,
        outcome: Outcome)

  /** The state an update lets a flow run on in. */
  function Kept(flow: Flow, state: string): string {
    if state in flow.states then state else flow.initial
  }

  /** After an update a flow that ran before runs again, in its old state if the new flow still has it. */
  function Restored(s: State, document: DocumentId, flowId: string, state: string, target: MountTarget, remount: bool,
                    o: Outcome): State
  {
    var key := UnitKey(document, flowId);
    if document !in s.documents || flowId !in s.documents[document].flows || key in s.running then s
    else
      var flow := s.documents[document].flows[flowId];
      var kept := Kept(flow, state);
      var running := Running(document, flowId, kept, ScreenPath(kept), target);
      if !remount then s.(running := s.running[key := running])
      else
        var (after, ok) := Mount(s, document, ScreenPath(kept), target, o);
        if ok then after.(running := after.running[key := running]) else after
  }

  function Ended(s: State, document: DocumentId): State {
    WithoutMounts(WithoutTransients(WithoutFlows(s, document), document), document)
  }

  /** A document's content is replaced by an update, after its flows, transients and mounts have ended. */
  function Replaced(s: State, document: DocumentId, content: Document): State {
    if document !in s.documents || DocumentFlows(s.running, document) != {} then s
    else s.(documents := s.documents[document := content])
  }

  function Step(s: State, a: Action): State {
    match a
    case Load(d, content) => if d in s.documents then s else s.(documents := s.documents[d := content])
    case Unload(d) => WithoutDocument(s, d)
    case EndDocument(d) => Ended(s, d)
    case Replace(d, content) => Replaced(s, d, content)
    case MountScreen(d, path, target, o) => Mount(s, d, path, target, o).0
    case UnmountScreen(d, path) => Unmount(s, d, path)
    case PushTransient(d, path, target, o) => Push(s, d, path, target, o).0
    case PopTransient(id) => Pop(s, id)
    case StartFlow(d, f, target, o) => Start(s, d, f, target, o).0
    case TriggerFlow(d, f, action, o, restore) => Trigger(s, d, f, action, o, restore).0
    case StopFlow(d, f) => Stop(s, d, f)
    case RestoreFlow(d, f, state, target, remount, o) => Restored(s, d, f, state, target, remount, o)
  }

  function Run(s: State, actions: seq<Action>): State
    decreases |actions|
  {
    if actions == [] then s else Run(Step(s, actions[0]), actions[1..])
  }

  // ---- Invariants ----

  predicate MountOk(s: State, k: MountKey) {
    k in s.mounted ==>
      var m := s.mounted[k];
      && k == KeyOf(m.document, m.path, m.target) && m.sequence < s.nextSequence && m.document in s.documents
      && NormalizePath(m.path) == m.path
  }

  predicate FlowOk(s: State, k: string) {
    k in s.running ==>
      var r := s.running[k];
      && k == UnitKey(r.document, r.flowId) && r.screen == ScreenPath(r.state)
      && r.document in s.documents && r.flowId in s.documents[r.document].flows
  }

  predicate TransientOk(s: State, i: nat) {
    i in s.transients ==> i < s.nextTransient && s.transients[i].document in s.documents
  }

  /**
   * Every mount sits under its own key in a loaded document, mount order is unambiguous, every flow's screen is the
   * path of its state and its document and definition are there.
   */
  ghost predicate Ok(s: State) {
    && (forall k :: MountOk(s, k))
    && (forall k, l :: k in s.mounted && l in s.mounted && s.mounted[k].sequence == s.mounted[l].sequence ==> k == l)
    && (forall k :: FlowOk(s, k))
    && (forall i :: TransientOk(s, i))
  }

  /** Fewer mounts, flows and transients, same documents. */
  predicate Shrunk(s: State, t: State) {
    && t.documents == s.documents && t.nextSequence == s.nextSequence && t.nextTransient == s.nextTransient
    && (forall k :: k in t.mounted ==> k in s.mounted && t.mounted[k] == s.mounted[k])
    && (forall k :: k in t.running ==> k in s.running && t.running[k] == s.running[k])
    && (forall i :: i in t.transients ==> i in s.transients && t.transients[i] == s.transients[i])
  }

  lemma ShrunkOk(s: State, t: State)
    requires Ok(s) && Shrunk(s, t)
    ensures Ok(t)
  {
    forall k ensures MountOk(t, k) {
      assert MountOk(s, k);
    }
    forall k ensures FlowOk(t, k) {
      assert FlowOk(s, k);
    }
    forall i ensures TransientOk(t, i) {
      assert TransientOk(s, i);
    }
  }

  lemma ClearedShrinks(mounted: map<MountKey, Mounted>, document: DocumentId, path: string, target: MountTarget)
    ensures var c := Cleared(mounted, document, path, target);
            forall k :: k in c ==> k in mounted && c[k] == mounted[k]
  {
  }

  lemma NormalTwice(path: string)
    ensures NormalizePath(NormalizePath(path)) == NormalizePath(path)
  {
    NormalizeFixedPoints(path);
  }

  /** Mounting touches the mount table only; it succeeds exactly with the screen mounted where it was asked. */
  lemma MountKeeps(s: State, document: DocumentId, path: string, target: MountTarget, o: Outcome)
    requires Ok(s)
    ensures var (t, ok) := Mount(s, document, path, target, o);
            && Ok(t)
            && t == s.(mounted := t.mounted, nextSequence := t.nextSequence)
            && (ok <==> Mountable(s, document, path, target, o.built).Some? && o.accepted)
            && (ok ==> MountedAt(t, document, NormalizePath(path), target))
  {
    hide Cleared, NormalTarget, NormalizePath, TrimSlashes;
    var (t, ok) := Mount(s, document, path, target, o);
    var normal := Mountable(s, document, path, target, o.built);
    if normal.Some? {
      var p := NormalizePath(path);
      var cleared := s.(mounted := Cleared(s.mounted, document, p, normal.value));
      ClearedShrinks(s.mounted, document, p, normal.value);
      ShrunkOk(s, cleared);
      NormalTwice(path);
      if o.accepted {
        var key := KeyOf(document, p, normal.value);
        OneMoreMount(cleared, key, Mounted(document, p, normal.value, s.nextSequence));
        NormalIsTarget(s.displays, target);
        assert key in t.mounted && OnTarget(t.mounted[key], document, p, normal.value);
      }
    }
  }

  lemma OneMoreMount(s: State, key: MountKey, m: Mounted)
    requires Ok(s) && key == KeyOf(m.document, m.path, m.target) && m.sequence == s.nextSequence
    requires m.document in s.documents && NormalizePath(m.path) == m.path
    ensures Ok(s.(mounted := s.mounted[key := m], nextSequence := s.nextSequence + 1))
  {
    hide NormalizePath, TrimSlashes;
    var t := s.(mounted := s.mounted[key := m], nextSequence := s.nextSequence + 1);
    forall k ensures MountOk(t, k) {
      assert MountOk(s, k);
    }
    forall k ensures FlowOk(t, k) {
      assert FlowOk(s, k);
    }
    forall i ensures TransientOk(t, i) {
      assert TransientOk(s, i);
    }
    forall k, l | k in t.mounted && l in t.mounted && t.mounted[k].sequence == t.mounted[l].sequence ensures k == l {
      assert MountOk(s, k) && MountOk(s, l);
    }
  }

  predicate OnTarget(m: Mounted, document: DocumentId, path: string, target: MountTarget) {
    && Shows(m, document, path)
    && m.target.display == target.display && m.target.layer == target.layer && m.target.stack == target.stack
  }

  /** The mount table has the screen on this target. */
  predicate MountedAt(s: State, document: DocumentId, path: string, target: MountTarget) {
    var normal := NormalTarget(s.displays, target);
    normal.Some? && exists k :: k in s.mounted && OnTarget(s.mounted[k], document, path, normal.value)
  }

  lemma NormalIsTarget(displays: seq<Display>, target: MountTarget)
    ensures var n := NormalTarget(displays, target);
            n.Some? ==> n.value.layer == target.layer && n.value.stack == target.stack && n.value.z == target.z
  {
  }

  lemma SetRunningOk(s: State, key: string, r: Running)
    requires Ok(s) && key == UnitKey(r.document, r.flowId) && r.screen == ScreenPath(r.state)
    requires r.document in s.documents && r.flowId in s.documents[r.document].flows
    ensures Ok(s.(running := s.running[key := r]))
  {
    var t := s.(running := s.running[key := r]);
    forall k ensures MountOk(t, k) {
      assert MountOk(s, k);
    }
    forall k ensures FlowOk(t, k) {
      assert FlowOk(s, k);
    }
    forall i ensures TransientOk(t, i) {
      assert TransientOk(s, i);
    }
  }

  lemma UnmountOk(s: State, document: DocumentId, path: string)
    requires Ok(s)
    ensures Ok(Unmount(s, document, path))
  {
    hide Ok, NormalizePath;
    ShrunkOk(s, Unmount(s, document, path));
  }

  lemma StartKeeps(s: State, document: DocumentId, flowId: string, target: MountTarget, o: Outcome)
    requires Ok(s)
    ensures Ok(Start(s, document, flowId, target, o).0)
  {
    hide Ok, Mount;
    if document in s.documents && flowId in s.documents[document].flows && UnitKey(document, flowId) !in s.running {
      var initial := s.documents[document].flows[flowId].initial;
      MountKeeps(s, document, ScreenPath(initial), target, o);
      var (after, ok) := Mount(s, document, ScreenPath(initial), target, o);
      if ok {
        SetRunningOk(after, UnitKey(document, flowId), Running(document, flowId, initial, ScreenPath(initial), target));
      }
    }
  }

  lemma RestoreKeeps(s: State, document: DocumentId, flowId: string, state: string, target: MountTarget, remount: bool,
                     o: Outcome)
    requires Ok(s)
    ensures Ok(Restored(s, document, flowId, state, target, remount, o))
  {
    hide Ok, Mount;
    var key := UnitKey(document, flowId);
    if document in s.documents && flowId in s.documents[document].flows && key !in s.running {
      var flow := s.documents[document].flows[flowId];
      var kept := Kept(flow, state);
      var r := Running(document, flowId, kept, ScreenPath(kept), target);
      if !remount {
        SetRunningOk(s, key, r);
      } else {
        MountKeeps(s, document, ScreenPath(kept), target, o);
        var (after, ok) := Mount(s, document, ScreenPath(kept), target, o);
        if ok {
          SetRunningOk(after, key, r);
        }
      }
    }
  }

  /**
   * One action on a running flow: either it is accepted, the flow moves to what the automaton says and the screen of
   * the new state is in the mount table, or the flow stays in its state. The definition and the other flows stay as
   * they are.
   */
  lemma TriggerOutcome(s: State, document: DocumentId, flowId: string, action: string, o: Outcome, restore: Outcome)
    requires Ok(s) && UnitKey(document, flowId) in s.running
    ensures document in s.documents && flowId in s.documents[document].flows
    ensures var (t, ok) := Trigger(s, document, flowId, action, o, restore);
            var key := UnitKey(document, flowId);
            var next := Next(s.documents[document].flows[flowId], s.running[key].state, action);
            && Ok(t) && t.documents == s.documents && t.displays == s.displays
            && t.running.Keys == s.running.Keys &&
                (forall k :: k in s.running && k != key ==> t.running[k] == s.running[k])
            && (!ok ==> t.running[key] == s.running[key])
            && (ok ==>
              next.Some? && t.running[key].state == next.value && t.running[key].screen == ScreenPath(next.value)
                       && MountedAt(t, document, NormalizePath(t.running[key].screen), s.running[key].target))
  {
    hide Ok, Mount, Next, MountedAt, NormalizePath;
    var key := UnitKey(document, flowId);
    RunningFacts(s, document, flowId);
    var r, next := s.running[key], Next(s.documents[document].flows[flowId], s.running[key].state, action);
    if next.Some? && next.value == r.state && FlowMounted(s, r) {
      MountedIsNormal(s, document, r.screen, r.target);
    } else if next.Some? {
      var without := Unmount(s, document, r.screen);
      UnmountOk(s, document, r.screen);
      MountKeeps(without, document, ScreenPath(next.value), r.target, o);
      var (after, ok) := Mount(without, document, ScreenPath(next.value), r.target, o);
      if ok {
        SetRunningOk(after, key, r.(state := next.value, screen := ScreenPath(next.value)));
        SameTable(after,
            after.(running := after.running[key := r.(state := next.value, screen := ScreenPath(next.value))]),
                  document, NormalizePath(ScreenPath(next.value)), r.target);
      } else {
        MountKeeps(after, document, r.screen, r.target, restore);
      }
    }
  }

  // ---- What mounting and the flows mean, in terms of screens shown and transitions listed ----

  ghost predicate Shown(s: State, m: Mounted) {
    exists k :: k in s.mounted && s.mounted[k] == m
  }

  predicate SameLayer(a: MountTarget, b: MountTarget) {
    a.display == b.display && a.layer == b.layer
  }

  /** The display a target without a display name stands for: the first default one, else the first. */
  predicate IsDefault(displays: seq<Display>, i: nat) {
    && i < |displays|
    && if exists j :: 0 <= j < |displays| && displays[j].isDefault
       then displays[i].isDefault && forall j :: 0 <= j < i ==> !displays[j].isDefault
       else i == 0
  }

  /** The target a screen goes to, named or by default. */
  ghost predicate GoesTo(displays: seq<Display>, target: MountTarget, place: MountTarget) {
    && place.layer == target.layer && place.stack == target.stack && place.z == target.z
    && if target.display == "" then exists i: nat :: IsDefault(displays, i) && place.display == displays[i].id
       else place.display == target.display && exists i :: 0 <= i < |displays| && displays[i].id == target.display
  }

  /** The document is loaded and has a screen of this path. */
  predicate HasScreen(s: State, document: DocumentId, p: string) {
    p != "" && p[0] == '/' && Segment(p[1..]) && document in s.documents && p[1..] in s.documents[document].screens
  }

  /**
   * A screen that must make room: when replacing, every mount of the screen that holds the place; when stacking, every
   * mount of the screen itself if it is on this stack already.
   */
  ghost predicate MakesRoom(s: State, m: Mounted, document: DocumentId, p: string, place: MountTarget) {
    exists holder ::
      && Shown(s, holder) && holder.target.stack == place.stack && SameLayer(holder.target, place)
      && m.document == holder.document && m.path == holder.path
      && (place.stack ==> holder.document == document && holder.path == p)
  }

  /** Only the screens shown and the next sequence number may differ. */
  predicate SameButShown(s: State, t: State) {
    t == s.(mounted := t.mounted, nextSequence := t.nextSequence)
  }

  /** What mounting a screen must do, whether the backend takes it or not. */
  ghost predicate MountMeans(s: State, document: DocumentId, path: string, target: MountTarget, o: Outcome, t: State,
                             ok: bool) {
    var p := NormalizePath(path);
    && SameButShown(s, t)
    && if HasScreen(s, document, p) && o.built && exists place :: GoesTo(s.displays, target, place)
       then
         && ok == o.accepted && t.nextSequence == s.nextSequence + (if ok then 1 else 0)
         && (forall place :: GoesTo(s.displays, target, place) ==>
               forall m :: Shown(t, m) <==>
                 (ok && m == Mounted(document, p, place, s.nextSequence)) ||
                 (Shown(s, m) && !MakesRoom(s, m, document, p, place)))
       else !ok && t == s
  }

  /** What unmounting a screen must do: it leaves every place it is on, all others stay. */
  ghost predicate UnmountMeans(s: State, document: DocumentId, path: string, t: State) {
    && SameButShown(s, t) && t.nextSequence == s.nextSequence
    && forall m :: Shown(t, m) <==> Shown(s, m) && !(m.document == document && m.path == NormalizePath(path))
  }

  predicate Applies(t: Transition, state: string, action: string) {
    t.action == action && state in t.from
  }

  predicate AppliesAnywhere(t: Transition, action: string) {
    t.action == action && t.from == []
  }

  predicate SomeApplies(ts: seq<Transition>, state: string, action: string) {
    exists i :: 0 <= i < |ts| && (Applies(ts[i], state, action) || AppliesAnywhere(ts[i], action))
  }

  /** The transition an action takes: the first that names the state, and only without one the first that names none. */
  predicate Taken(ts: seq<Transition>, state: string, action: string, i: nat) {
    && i < |ts|
    && if exists j :: 0 <= j < |ts| && Applies(ts[j], state, action)
       then Applies(ts[i], state, action) && forall j :: 0 <= j < i ==> !Applies(ts[j], state, action)
       else AppliesAnywhere(ts[i], action) && forall j :: 0 <= j < i ==> !AppliesAnywhere(ts[j], action)
  }

  /** The screen is shown on the flow's own layer and in its mode. */
  ghost predicate ShownAt(s: State, document: DocumentId, path: string, target: MountTarget) {
    exists place, m ::
      && GoesTo(s.displays, target, place) && Shown(s, m)
      && m.document == document && m.path == path && SameLayer(m.target, place) && m.target.stack == place.stack
  }

  /** One action of a running flow that takes a transition to `to`. */
  ghost predicate MoveMeans(s: State, r: Running, to: string, o: Outcome, restore: Outcome, t: State, ok: bool) {
    var key := UnitKey(r.document, r.flowId);
    if to == r.state && ShownAt(s, r.document, r.screen, r.target) then ok && t == s
    else exists without, after, moved ::
      && UnmountMeans(s, r.document, r.screen, without)
      && MountMeans(without, r.document, "/" + to, r.target, o, after, moved)
      && ok == moved
      && if moved then t == after.(running := after.running[key := r.(state := to, screen := "/" + to)])
         else exists restored :: MountMeans(after, r.document, r.screen, r.target, restore, t, restored)
  }

  /** What an action must do: refused when no transition is taken, else a move. */
  ghost predicate TriggerMeans(s: State, document: DocumentId, flowId: string, action: string, o: Outcome,
                               restore: Outcome, t: State, ok: bool) {
    var key := UnitKey(document, flowId);
    if key !in s.running then !ok && t == s
    else if document !in s.documents || flowId !in s.documents[document].flows
    then !ok && t == s.(running := s.running - {key})
    else
      var ts, r := s.documents[document].flows[flowId].transitions, s.running[key];
      && ((forall i: nat :: !Taken(ts, r.state, action, i)) ==> !ok && t == s)
      && (forall i: nat :: Taken(ts, r.state, action, i) ==> MoveMeans(s, r, ts[i].to, o, restore, t, ok))
  }

  /** What starting a flow must do: nothing to one that runs, else its initial screen is mounted. */
  ghost predicate StartMeans(s: State, document: DocumentId, flowId: string, target: MountTarget, o: Outcome, t: State,
                             ok: bool) {
    var key := UnitKey(document, flowId);
    if document !in s.documents || flowId !in s.documents[document].flows then !ok && t == s
    else if key in s.running then ok && t == s
    else
      var initial := s.documents[document].flows[flowId].initial;
      exists after ::
        && MountMeans(s, document, "/" + initial, target, o, after, ok)
        && t == if ok then after.(running := after.running[key :=
                                      Running(document, flowId, initial, "/" + initial, target)]) else after
  }

  /** What stopping a flow must do: it is forgotten and its screen leaves every place. */
  ghost predicate StopMeans(s: State, document: DocumentId, flowId: string, t: State) {
    var key := UnitKey(document, flowId);
    if key !in s.running then t == s
    else UnmountMeans(s.(running := s.running - {key}), document, s.running[key].screen, t)
  }

  lemma DefaultIs(displays: seq<Display>, i: nat)
    ensures DefaultDisplay(displays).None? <==> displays == []
    ensures IsDefault(displays, i) ==> i < |displays| && DefaultDisplay(displays) == Some(displays[i].id)
    ensures displays != [] ==> exists j: nat :: IsDefault(displays, j)
  {
    if exists j :: 0 <= j < |displays| && displays[j].isDefault {
      var first := FirstIs(displays);
      assert IsDefault(displays, first);
    } else if displays != [] {
      assert IsDefault(displays, 0);
    }
  }

  lemma {:induction false} FirstIs(displays: seq<Display>) returns (i: nat)
    requires exists j :: 0 <= j < |displays| && displays[j].isDefault
    ensures i < |displays| && displays[i].isDefault && forall j :: 0 <= j < i ==> !displays[j].isDefault
    ensures FirstDefault(displays) == displays[i].id
    decreases |displays|
  {
    i := 0;
    if !displays[0].isDefault {
      var rest := FirstIs(displays[1..]);
      i := rest + 1;
      assert forall j :: 0 < j < i ==> displays[j] == displays[1..][j - 1];
    }
  }

  lemma PlaceIs(displays: seq<Display>, target: MountTarget, place: MountTarget)
    ensures GoesTo(displays, target, place) <==> NormalTarget(displays, target) == Some(place)
  {
    hide DefaultDisplay;
    assert place == MountTarget(place.display, place.layer, place.stack, place.z);
    forall i: nat | IsDefault(displays, i) ensures DefaultDisplay(displays) == Some(displays[i].id) {
      DefaultIs(displays, i);
    }
    DefaultIs(displays, 0);
  }

  lemma TrimmedNormal(path: string)
    ensures TrimSlashes(NormalizePath(path)) == NormalizePath(path)[1..]
  {
    var p := NormalizePath(path);
    assert TrimLeft(p) == TrimLeft(p[1..]) == p[1..];
  }

  lemma ScreenIs(s: State, document: DocumentId, path: string)
    ensures HasScreen(s, document, NormalizePath(path)) <==>
            document in s.documents && Segment(ScreenId(path)) && ScreenId(path) in s.documents[document].screens
  {
    hide NormalizePath, TrimSlashes;
    TrimmedNormal(path);
  }

  /** The screens that are cleared away are those that must make room. */
  lemma ClearedMakesRoom(s: State, document: DocumentId, p: string, place: MountTarget, k: MountKey)
    requires Ok(s) && k in s.mounted
    ensures k in Cleared(s.mounted, document, p, place) <==> !MakesRoom(s, s.mounted[k], document, p, place)
    ensures k == KeyOf(document, p, place) ==> MakesRoom(s, s.mounted[k], document, p, place)
  {
    hide NormalizePath, Segment;
    forall l ensures MountOk(s, l) {
    }
    if !place.stack {
      var key := ReplaceKey(place.display, place.layer);
      if key in s.mounted {
        assert MountOk(s, key);
        assert Shown(s, s.mounted[key]);
      }
      forall holder | Shown(s, holder) && !holder.target.stack && SameLayer(holder.target, place)
        ensures key in s.mounted && holder == s.mounted[key]
      {
        var l :| l in s.mounted && s.mounted[l] == holder;
        assert MountOk(s, l);
      }
    } else {
      forall l | l in s.mounted && SameStack(s.mounted[l], document, p, place) ensures Shown(s, s.mounted[l]) {
      }
      if k == KeyOf(document, p, place) {
        assert MountOk(s, k) && Shown(s, s.mounted[k]);
      }
    }
  }

  lemma ClearedShows(s: State, document: DocumentId, p: string, place: MountTarget, m: Mounted)
    requires Ok(s)
    ensures Shown(s.(mounted := Cleared(s.mounted, document, p, place)), m) <==>
            Shown(s, m) && !MakesRoom(s, m, document, p, place)
  {
    hide Ok, MakesRoom, Cleared;
    var cleared := Cleared(s.mounted, document, p, place);
    ClearedShrinks(s.mounted, document, p, place);
    forall k | k in s.mounted && s.mounted[k] == m
      ensures k in cleared <==> !MakesRoom(s, m, document, p, place)
    {
      ClearedMakesRoom(s, document, p, place, k);
    }
  }

  lemma OneMoreShown(s: State, document: DocumentId, p: string, place: MountTarget, m: Mounted)
    requires Ok(s)
    ensures var one := Mounted(document, p, place, s.nextSequence);
            var cleared := Cleared(s.mounted, document, p, place);
            Shown(s.(mounted := cleared[KeyOf(document, p, place) := one], nextSequence := s.nextSequence + 1), m)
            <==> m == one || Shown(s.(mounted := cleared), m)
  {
    hide Ok, MakesRoom, Cleared, KeyOf;
    var one := Mounted(document, p, place, s.nextSequence);
    var key, cleared := KeyOf(document, p, place), Cleared(s.mounted, document, p, place);
    var after := cleared[key := one];
    ClearedShrinks(s.mounted, document, p, place);
    if key in cleared {
      ClearedMakesRoom(s, document, p, place, key);
      assert false;
    }
    assert key in after && after[key] == one;
    forall k | k in cleared ensures k in after && after[k] == cleared[k] {
    }
  }

  /** Mounting does what it means: exactly the screens that must make room leave, and the new one is shown alone. */
  lemma MountIsMeant(s: State, document: DocumentId, path: string, target: MountTarget, o: Outcome)
    requires Ok(s)
    ensures MountMeans(s, document, path, target, o, Mount(s, document, path, target, o).0,
                       Mount(s, document, path, target, o).1)
  {
    hide Ok, MakesRoom, Cleared, KeyOf, NormalTarget, GoesTo, HasScreen, NormalizePath, ScreenId, Shown, Segment;
    var p, normal := NormalizePath(path), NormalTarget(s.displays, target);
    ScreenIs(s, document, path);
    forall place ensures GoesTo(s.displays, target, place) <==> normal == Some(place) {
      PlaceIs(s.displays, target, place);
    }
    assert normal.Some? ==> GoesTo(s.displays, target, normal.value);
    if HasScreen(s, document, p) && o.built && normal.Some? {
      var place, t := normal.value, Mount(s, document, path, target, o).0;
      var cleared := s.(mounted := Cleared(s.mounted, document, p, place));
      forall m
        ensures Shown(t, m) <==> (o.accepted && m == Mounted(document, p, place, s.nextSequence)) ||
                                 (Shown(s, m) && !MakesRoom(s, m, document, p, place))
      {
        ClearedShows(s, document, p, place, m);
        OneMoreShown(s, document, p, place, m);
      }
    }
  }

  lemma UnmountIsMeant(s: State, document: DocumentId, path: string)
    ensures UnmountMeans(s, document, path, Unmount(s, document, path))
  {
    hide NormalizePath;
    var t := Unmount(s, document, path);
    forall m ensures Shown(t, m) <==> Shown(s, m) && !(m.document == document && m.path == NormalizePath(path)) {
      forall k | k in s.mounted && s.mounted[k] == m
        ensures k in t.mounted <==> !(m.document == document && m.path == NormalizePath(path))
      {
      }
    }
  }

  lemma TakenIsNext(flow: Flow, state: string, action: string, i: nat)
    ensures Taken(flow.transitions, state, action, i) ==>
              i < |flow.transitions| && Next(flow, state, action) == Some(flow.transitions[i].to)
    ensures Next(flow, state, action).Some? ==> exists j: nat :: Taken(flow.transitions, state, action, j)
  {
    var ts := flow.transitions;
    var exact, any := FirstExact(ts, state, action), FirstWildcard(ts, action);
    forall j | 0 <= j < |ts|
      ensures Applies(ts[j], state, action) <==> Exact(ts[j], state, action)
      ensures AppliesAnywhere(ts[j], action) <==> Wildcard(ts[j], action)
    {
    }
    if exact < |ts| {
      assert Taken(ts, state, action, exact);
    } else if any < |ts| {
      assert Taken(ts, state, action, any);
    }
  }

  lemma ShownAtIs(s: State, document: DocumentId, path: string, target: MountTarget)
    ensures ShownAt(s, document, path, target) <==> MountedAt(s, document, path, target)
  {
    hide GoesTo, NormalTarget;
    forall place ensures GoesTo(s.displays, target, place) <==> NormalTarget(s.displays, target) == Some(place) {
      PlaceIs(s.displays, target, place);
    }
    var normal := NormalTarget(s.displays, target);
    if MountedAt(s, document, path, target) {
      var k :| k in s.mounted && OnTarget(s.mounted[k], document, path, normal.value);
      assert GoesTo(s.displays, target, normal.value) && Shown(s, s.mounted[k]);
    }
  }

  /** An action does what it means. */
  lemma TriggerIsMeant(s: State, document: DocumentId, flowId: string, action: string, o: Outcome, restore: Outcome)
    requires Ok(s)
    ensures TriggerMeans(s, document, flowId, action, o, restore,
                         Trigger(s, document, flowId, action, o, restore).0,
                         Trigger(s, document, flowId, action, o, restore).1)
  {
    hide Ok, Mount, MountMeans, Unmount, UnmountMeans, Next, Taken, MountedAt, ShownAt, UnitKey;
    var key := UnitKey(document, flowId);
    if key in s.running && document in s.documents && flowId in s.documents[document].flows {
      RunningFacts(s, document, flowId);
      var flow, r := s.documents[document].flows[flowId], s.running[key];
      forall i: nat | Taken(flow.transitions, r.state, action, i)
        ensures i < |flow.transitions| && Next(flow, r.state, action) == Some(flow.transitions[i].to)
      {
        TakenIsNext(flow, r.state, action, i);
      }
      TakenIsNext(flow, r.state, action, 0);
      ShownAtIs(s, document, r.screen, r.target);
      var next := Next(flow, r.state, action);
      if next.Some? && !(next.value == r.state && FlowMounted(s, r)) {
        MoveIsMeant(s, r, Next(flow, r.state, action).value, o, restore);
      }
    }
  }

  lemma MoveIsMeant(s: State, r: Running, to: string, o: Outcome, restore: Outcome)
    requires Ok(s) && !(to == r.state && ShownAt(s, r.document, r.screen, r.target))
    ensures var (after, moved) := Mount(Unmount(s, r.document, r.screen), r.document, ScreenPath(to), r.target, o);
            var key := UnitKey(r.document, r.flowId);
            MoveMeans(s, r, to, o, restore,
                      if moved then after.(running := after.running[key := r.(state := to, screen := ScreenPath(to))])
                      else Mount(after, r.document, r.screen, r.target, restore).0, moved)
  {
    hide Ok, Mount, MountMeans, Unmount, UnmountMeans, ShownAt;
    UnmountOk(s, r.document, r.screen);
    UnmountIsMeant(s, r.document, r.screen);
    var without := Unmount(s, r.document, r.screen);
    MountKeeps(without, r.document, "/" + to, r.target, o);
    MountIsMeant(without, r.document, "/" + to, r.target, o);
    var (after, moved) := Mount(without, r.document, "/" + to, r.target, o);
    MountIsMeant(after, r.document, r.screen, r.target, restore);
  }

  lemma StartIsMeant(s: State, document: DocumentId, flowId: string, target: MountTarget, o: Outcome)
    requires Ok(s)
    ensures StartMeans(s, document, flowId, target, o, Start(s, document, flowId, target, o).0,
                       Start(s, document, flowId, target, o).1)
  {
    hide Ok, Mount, MountMeans, UnitKey;
    if document in s.documents && flowId in s.documents[document].flows {
      MountIsMeant(s, document, "/" + s.documents[document].flows[flowId].initial, target, o);
    }
  }

  /** What restoring a flow after a reload must do: its old state if the definition has it, else the initial one. */
  ghost predicate RestoreMeans(s: State, document: DocumentId, flowId: string, state: string, target: MountTarget,
                               remount: bool, o: Outcome, t: State) {
    var key := UnitKey(document, flowId);
    if document !in s.documents || flowId !in s.documents[document].flows || key in s.running then t == s
    else exists at ::
      && at == (if state in s.documents[document].flows[flowId].states then state
                else s.documents[document].flows[flowId].initial)
      && var r := Running(document, flowId, at, "/" + at, target);
         if !remount then t == s.(running := s.running[key := r])
         else exists after, ok ::
           && MountMeans(s, document, "/" + at, target, o, after, ok)
           && t == if ok then after.(running := after.running[key := r]) else after
  }

  lemma RestoreIsMeant(s: State, document: DocumentId, flowId: string, state: string, target: MountTarget,
                       remount: bool, o: Outcome)
    requires Ok(s)
    ensures RestoreMeans(s, document, flowId, state, target, remount, o,
                         Restored(s, document, flowId, state, target, remount, o))
  {
    hide Ok, Mount, MountMeans, UnitKey;
    if document in s.documents && flowId in s.documents[document].flows {
      MountIsMeant(s, document, "/" + Kept(s.documents[document].flows[flowId], state), target, o);
    }
  }

  /** What pushing a transient screen must do: one entry more, exactly when the screen can be shown. */
  ghost predicate PushMeans(s: State, document: DocumentId, path: string, target: MountTarget, o: Outcome, t: State) {
    var p := NormalizePath(path);
    if HasScreen(s, document, p) && o.built && o.accepted && exists place :: GoesTo(s.displays, target, place)
    then forall place :: GoesTo(s.displays, target, place) ==>
      t == s.(nextTransient := s.nextTransient + 1,
              transients := s.transients[s.nextTransient := Transient(document, p, place)])
    else t == s
  }

  /** What ending a document must do: every entry of it is gone, every entry of the others is as it was. */
  ghost predicate EndMeans(s: State, d: DocumentId, t: State) {
    && t == s.(mounted := t.mounted, transients := t.transients, running := t.running)
    && (forall m :: Shown(t, m) <==> Shown(s, m) && m.document != d)
    && (forall i :: i in t.transients <==> i in s.transients && s.transients[i].document != d)
    && (forall i :: i in t.transients ==> t.transients[i] == s.transients[i])
    && (forall k :: k in t.running <==> k in s.running && s.running[k].document != d)
    && (forall k :: k in t.running ==> t.running[k] == s.running[k])
  }

  /** What one step of a run must do. */
  ghost predicate StepMeans(s: State, a: Action, t: State) {
    match a
    case Load(d, content) => t == if d in s.documents then s else s.(documents := s.documents[d := content])
    case Unload(d) => exists ended :: EndMeans(s, d, ended) && t == ended.(documents := s.documents - {d})
    case EndDocument(d) => EndMeans(s, d, t)
    case Replace(d, content) =>
      t == if d in s.documents && (forall k :: k in s.running ==> s.running[k].document != d)
           then s.(documents := s.documents[d := content]) else s
    case MountScreen(d, path, target, o) => exists ok :: MountMeans(s, d, path, target, o, t, ok)
    case UnmountScreen(d, path) => UnmountMeans(s, d, path, t)
    case PushTransient(d, path, target, o) => PushMeans(s, d, path, target, o, t)
    case PopTransient(id) => t == s.(transients := s.transients - {id})
    case StartFlow(d, f, target, o) => exists ok :: StartMeans(s, d, f, target, o, t, ok)
    case TriggerFlow(d, f, action, o, restore) => exists ok :: TriggerMeans(s, d, f, action, o, restore, t, ok)
    case StopFlow(d, f) => StopMeans(s, d, f, t)
    case RestoreFlow(d, f, state, target, remount, o) => RestoreMeans(s, d, f, state, target, remount, o, t)
  }

  lemma PushIsMeant(s: State, document: DocumentId, path: string, target: MountTarget, o: Outcome)
    ensures PushMeans(s, document, path, target, o, Push(s, document, path, target, o).0)
  {
    hide NormalizePath, ScreenId, NormalTarget, GoesTo, HasScreen, Segment;
    ScreenIs(s, document, path);
    forall place ensures GoesTo(s.displays, target, place) <==> NormalTarget(s.displays, target) == Some(place) {
      PlaceIs(s.displays, target, place);
    }
  }

  lemma FlowsOf(s: State, d: DocumentId)
    requires Ok(s)
    ensures forall k :: k in DocumentFlows(s.running, d) <==> k in s.running && s.running[k].document == d
    ensures DocumentFlows(s.running, d) == {} <==> forall k :: k in s.running ==> s.running[k].document != d
  {
    hide UnitPrefix, UnitKey;
    forall k | k in s.running ensures UnitPrefix(d) <= k <==> s.running[k].document == d {
      assert FlowOk(s, k);
      UnitKeyOwner(d, s.running[k].document, s.running[k].flowId);
    }
    if DocumentFlows(s.running, d) == {} {
      forall k | k in s.running ensures s.running[k].document != d {
        assert k !in DocumentFlows(s.running, d);
      }
    } else {
      var k :| k in DocumentFlows(s.running, d);
      assert s.running[k].document == d;
    }
  }

  lemma EndIsMeant(s: State, d: DocumentId, t: State)
    requires Ok(s)
    requires t == s.(mounted := WithoutMounts(s, d).mounted, transients := WithoutTransients(s, d).transients,
                     running := s.running - DocumentFlows(s.running, d))
    ensures EndMeans(s, d, t)
  {
    hide Ok, DocumentFlows;
    FlowsOf(s, d);
    forall m ensures Shown(t, m) <==> Shown(s, m) && m.document != d {
      forall k | k in s.mounted && s.mounted[k] == m ensures k in t.mounted <==> m.document != d {
      }
    }
  }

  lemma EndedIs(s: State, d: DocumentId)
    ensures Ended(s, d) == s.(mounted := WithoutMounts(s, d).mounted, transients := WithoutTransients(s, d).transients,
                              running := s.running - DocumentFlows(s.running, d))
  {
    hide DocumentFlows, NormalizePath;
    var t := Ended(s, d);
    forall k ensures k in t.mounted <==> k in s.mounted && s.mounted[k].document != d {
    }
  }

  /** Every step of a run does what it means. */
  lemma StepIsMeant(s: State, a: Action)
    requires Ok(s)
    ensures StepMeans(s, a, Step(s, a))
  {
    hide Ok, Mount, MountMeans, UnmountMeans, PushMeans, StartMeans, TriggerMeans, StopMeans, RestoreMeans, EndMeans,
      Ended, Push, Start, Trigger, Stop, Restored, Unmount, DocumentFlows, MoveMeans, UnitKey;
    match a
    case Unload(d) =>
      var ended := s.(mounted := WithoutMounts(s, d).mounted, transients := WithoutTransients(s, d).transients,
                      running := s.running - DocumentFlows(s.running, d));
      EndIsMeant(s, d, ended);
    case EndDocument(d) => EndedIs(s, d); EndIsMeant(s, d, Ended(s, d));
    case Replace(d, content) => FlowsOf(s, d);
    case MountScreen(d, path, target, o) => MountIsMeant(s, d, path, target, o);
    case UnmountScreen(d, path) => UnmountIsMeant(s, d, path);
    case PushTransient(d, path, target, o) => PushIsMeant(s, d, path, target, o);
    case StartFlow(d, f, target, o) => StartIsMeant(s, d, f, target, o);
    case TriggerFlow(d, f, action, o, restore) => TriggerIsMeant(s, d, f, action, o, restore);
    case StopFlow(d, f) => StopIsMeant(s, d, f);
    case RestoreFlow(d, f, state, target, remount, o) => RestoreIsMeant(s, d, f, state, target, remount, o);
    case Load(d, content) =>
    case PopTransient(id) =>
  }

  lemma StopIsMeant(s: State, document: DocumentId, flowId: string)
    ensures StopMeans(s, document, flowId, Stop(s, document, flowId))
  {
    hide Unmount, UnmountMeans, UnitKey;
    var key := UnitKey(document, flowId);
    if key in s.running {
      UnmountIsMeant(s.(running := s.running - {key}), document, s.running[key].screen);
    }
  }

  /** After a refused move the old screen is shown again if its remount is accepted; the flow stays in its state. */
  lemma OldScreenRestored(s: State, document: DocumentId, flowId: string, action: string, o: Outcome, restore: Outcome,
                          t: State)
    requires Ok(s) && UnitKey(document, flowId) in s.running
    requires document in s.documents && flowId in s.documents[document].flows
    requires TriggerMeans(s, document, flowId, action, o, restore, t, false)
    requires exists i: nat :: Taken(s.documents[document].flows[flowId].transitions,
                                    s.running[UnitKey(document, flowId)].state, action, i)
    requires HasScreen(s, document, NormalizePath(s.running[UnitKey(document, flowId)].screen))
    requires exists place :: GoesTo(s.displays, s.running[UnitKey(document, flowId)].target, place)
    requires restore.built && restore.accepted
    ensures var r := s.running[UnitKey(document, flowId)];
            t.running == s.running && ShownAt(t, document, NormalizePath(r.screen), r.target)
  {
    hide Ok, UnitKey, Taken, NormalizePath, GoesTo, HasScreen, MoveMeans, ShownAt;
    RunningFacts(s, document, flowId);
    var r := s.running[UnitKey(document, flowId)];
    var ts := s.documents[document].flows[flowId].transitions;
    var i: nat :| Taken(ts, r.state, action, i);
    TakenIsNext(s.documents[document].flows[flowId], r.state, action, i);
    MovedBack(s, r, ts[i].to, o, restore, t);
  }

  lemma MovedBack(s: State, r: Running, to: string, o: Outcome, restore: Outcome, t: State)
    requires MoveMeans(s, r, to, o, restore, t, false) && restore.built && restore.accepted
    requires HasScreen(s, r.document, NormalizePath(r.screen)) && exists place :: GoesTo(s.displays, r.target, place)
    ensures t.running == s.running && ShownAt(t, r.document, NormalizePath(r.screen), r.target)
  {
    hide UnitKey, NormalizePath, GoesTo, Segment, MakesRoom, Shown, UnmountMeans;
    var without, after, moved :| UnmountMeans(s, r.document, r.screen, without)
      && MountMeans(without, r.document, "/" + to, r.target, o, after, moved) && !moved
      && exists restored :: MountMeans(after, r.document, r.screen, r.target, restore, t, restored);
    var place :| GoesTo(s.displays, r.target, place);
    OnlyShownDiffers(s, r, without);
    assert Shown(t, Mounted(r.document, NormalizePath(r.screen), place, after.nextSequence));
  }

  /** Where every screen can be shown, an action is refused exactly when no transition of its name applies. */
  lemma RefusedExactly(s: State, document: DocumentId, flowId: string, action: string, o: Outcome, restore: Outcome,
                       t: State, ok: bool)
    requires Ok(s) && UnitKey(document, flowId) in s.running
    requires document in s.documents && flowId in s.documents[document].flows
    requires TriggerMeans(s, document, flowId, action, o, restore, t, ok)
    requires o.built && o.accepted
    requires exists place :: GoesTo(s.displays, s.running[UnitKey(document, flowId)].target, place)
    requires forall i :: 0 <= i < |s.documents[document].flows[flowId].transitions| ==>
               HasScreen(s, document, NormalizePath("/" + s.documents[document].flows[flowId].transitions[i].to))
    ensures ok <==> SomeApplies(s.documents[document].flows[flowId].transitions,
                                s.running[UnitKey(document, flowId)].state, action)
  {
    hide Ok, UnitKey, NormalizePath, GoesTo, HasScreen, MoveMeans, ShownAt, Next, SomeApplies;
    RunningFacts(s, document, flowId);
    var r, flow := s.running[UnitKey(document, flowId)], s.documents[document].flows[flowId];
    NextApplies(flow, r.state, action);
    if Next(flow, r.state, action).Some? {
      TakenIsNext(flow, r.state, action, 0);
      var i: nat :| Taken(flow.transitions, r.state, action, i);
      assert MoveMeans(s, r, flow.transitions[i].to, o, restore, t, ok);
      MovedOn(s, r, flow.transitions[i].to, o, restore, t, ok);
    }
  }

  lemma NextApplies(flow: Flow, state: string, action: string)
    ensures Next(flow, state, action).Some? <==> SomeApplies(flow.transitions, state, action)
    ensures Next(flow, state, action).None? ==> forall i: nat :: !Taken(flow.transitions, state, action, i)
  {
    var ts := flow.transitions;
    forall j | 0 <= j < |ts|
      ensures Applies(ts[j], state, action) <==> Exact(ts[j], state, action)
      ensures AppliesAnywhere(ts[j], action) <==> Wildcard(ts[j], action)
    {
    }
    var exact, any := FirstExact(ts, state, action), FirstWildcard(ts, action);
    assert exact < |ts| ==> Applies(ts[exact], state, action);
    assert any < |ts| ==> AppliesAnywhere(ts[any], action);
  }

  lemma MovedOn(s: State, r: Running, to: string, o: Outcome, restore: Outcome, t: State, ok: bool)
    requires MoveMeans(s, r, to, o, restore, t, ok) && o.built && o.accepted
    requires HasScreen(s, r.document, NormalizePath("/" + to)) && exists place :: GoesTo(s.displays, r.target, place)
    ensures ok
  {
    hide UnitKey, NormalizePath, GoesTo, Segment, MakesRoom, Shown, UnmountMeans;
    if !(to == r.state && ShownAt(s, r.document, r.screen, r.target)) {
      var without, after, moved :| UnmountMeans(s, r.document, r.screen, without)
        && MountMeans(without, r.document, "/" + to, r.target, o, after, moved) && ok == moved;
      OnlyShownDiffers(s, r, without);
    }
  }

  lemma OnlyShownDiffers(s: State, r: Running, without: State)
    requires UnmountMeans(s, r.document, r.screen, without)
    ensures SameButShown(s, without)
  {
  }

  lemma SameTable(s: State, t: State, document: DocumentId, path: string, target: MountTarget)
    requires s.mounted == t.mounted && s.displays == t.displays
    ensures MountedAt(s, document, path, target) == MountedAt(t, document, path, target)
  {
  }

  /** Mounted screens are listed under their normalised path. */
  lemma MountedIsNormal(s: State, document: DocumentId, path: string, target: MountTarget)
    requires Ok(s) && MountedAt(s, document, path, target)
    ensures NormalizePath(path) == path
  {
    hide NormalizePath, NormalTarget;
    var k :| k in s.mounted && OnTarget(s.mounted[k], document, path, NormalTarget(s.displays, target).value);
    assert MountOk(s, k);
    assert s.mounted[k].path == path;
  }

  lemma RunningFacts(s: State, document: DocumentId, flowId: string)
    requires Ok(s) && UnitKey(document, flowId) in s.running
    ensures var r := s.running[UnitKey(document, flowId)];
            && r.document == document && r.flowId == flowId && r.screen == ScreenPath(r.state)
            && document in s.documents && flowId in s.documents[document].flows
  {
    hide UnitKey;
    var key := UnitKey(document, flowId);
    assert FlowOk(s, key);
    UnitKeyInjective(document, flowId, s.running[key].document, s.running[key].flowId);
  }

  lemma TriggerOk(s: State, document: DocumentId, flowId: string, action: string, o: Outcome, restore: Outcome)
    requires Ok(s)
    ensures Ok(Trigger(s, document, flowId, action, o, restore).0)
  {
    hide Ok;
    if UnitKey(document, flowId) in s.running {
      TriggerOutcome(s, document, flowId, action, o, restore);
    }
  }

  lemma ReplacedOk(s: State, document: DocumentId, content: Document)
    requires Ok(s)
    ensures Ok(Replaced(s, document, content))
  {
    var t := Replaced(s, document, content);
    forall k ensures MountOk(t, k) {
      assert MountOk(s, k);
    }
    forall k ensures FlowOk(t, k) {
      assert FlowOk(s, k);
      if k in s.running {
        UnitKeyOwner(document, s.running[k].document, s.running[k].flowId);
        assert s.running[k].document == document ==> k in DocumentFlows(s.running, document);
      }
    }
    forall i ensures TransientOk(t, i) {
      assert TransientOk(s, i);
    }
  }

  lemma LoadOk(s: State, document: DocumentId, content: Document)
    requires Ok(s) && document !in s.documents
    ensures Ok(s.(documents := s.documents[document := content]))
  {
    var t := s.(documents := s.documents[document := content]);
    forall k ensures MountOk(t, k) {
      assert MountOk(s, k);
    }
    forall k ensures FlowOk(t, k) {
      assert FlowOk(s, k);
    }
    forall i ensures TransientOk(t, i) {
      assert TransientOk(s, i);
    }
  }

  lemma PushOk(s: State, document: DocumentId, path: string, target: MountTarget, o: Outcome)
    requires Ok(s)
    ensures Ok(Push(s, document, path, target, o).0)
  {
    hide NormalizePath, TrimSlashes, NormalTarget;
    var t := Push(s, document, path, target, o).0;
    forall k ensures MountOk(t, k) {
      assert MountOk(s, k);
    }
    forall k ensures FlowOk(t, k) {
      assert FlowOk(s, k);
    }
    forall i ensures TransientOk(t, i) {
      assert TransientOk(s, i);
    }
  }

  // ---- Unloading ----

  /** Unloading leaves nothing of the document in any table and every entry of every other document as it was. */
  lemma UnloadIsolates(s: State, document: DocumentId)
    requires Ok(s)
    ensures var t := WithoutDocument(s, document);
            && Ok(t) && t.documents == s.documents - {document}
            && (forall k :: k in t.mounted <==> k in s.mounted && s.mounted[k].document != document)
            && (forall k :: k in t.mounted ==> t.mounted[k] == s.mounted[k])
            && (forall i :: i in t.transients <==> i in s.transients && s.transients[i].document != document)
            && (forall i :: i in t.transients ==> t.transients[i] == s.transients[i])
            && (forall k :: k in t.running <==> k in s.running && s.running[k].document != document)
            && (forall k :: k in t.running ==> t.running[k] == s.running[k])
  {
    hide UnitPrefix, UnitKey;
    var t := WithoutDocument(s, document);
    forall k | k in s.running ensures UnitPrefix(document) <= k <==> s.running[k].document == document {
      assert FlowOk(s, k);
      UnitKeyOwner(document, s.running[k].document, s.running[k].flowId);
    }
    forall k ensures MountOk(t, k) {
      assert MountOk(s, k);
    }
    forall k ensures FlowOk(t, k) {
      assert FlowOk(s, k);
    }
    forall i ensures TransientOk(t, i) {
      assert TransientOk(s, i);
    }
  }

  lemma EndedOk(s: State, document: DocumentId)
    requires Ok(s)
    ensures Ok(Ended(s, document)) && Shrunk(s, Ended(s, document))
  {
    hide Ok, FlowScreen;
    ShrunkOk(s, Ended(s, document));
  }

  lemma StepOk(s: State, a: Action)
    requires Ok(s)
    ensures Ok(Step(s, a))
  {
    hide Ok, Mount, Push, Trigger, Start, Restored, Replaced, WithoutDocument, Ended, Unmount;
    match a
    case Load(d, content) =>
      if d !in s.documents {
        LoadOk(s, d, content);
      }
    case Unload(d) => UnloadIsolates(s, d);
    case EndDocument(d) => EndedOk(s, d);
    case Replace(d, content) => ReplacedOk(s, d, content);
    case MountScreen(d, path, target, o) => MountKeeps(s, d, path, target, o);
    case UnmountScreen(d, path) => UnmountOk(s, d, path);
    case PushTransient(d, path, target, o) => PushOk(s, d, path, target, o);
    case PopTransient(id) => ShrunkOk(s, Pop(s, id));
    case StartFlow(d, f, target, o) => StartKeeps(s, d, f, target, o);
    case TriggerFlow(d, f, action, o, restore) => TriggerOk(s, d, f, action, o, restore);
    case StopFlow(d, f) => StopOk(s, d, f);
    case RestoreFlow(d, f, state, target, remount, o) => RestoreKeeps(s, d, f, state, target, remount, o);
  }

  lemma StopOk(s: State, document: DocumentId, flowId: string)
    requires Ok(s)
    ensures Ok(Stop(s, document, flowId)) && Shrunk(s, Stop(s, document, flowId))
  {
    hide Ok, NormalizePath, UnitKey;
    ShrunkOk(s, Stop(s, document, flowId));
  }

  /** In every reachable state the tables agree, whatever mounts failed on the way. */
  lemma {:induction false} RunOk(s: State, actions: seq<Action>)
    requires Ok(s)
    ensures Ok(Run(s, actions))
    decreases |actions|
  {
    hide Ok, Step;
    if actions != [] {
      StepOk(s, actions[0]);
      RunOk(Step(s, actions[0]), actions[1..]);
    }
  }

  // ---- The flow as a folded automaton ----

  /** Actions of the flow's triggers that were accepted, in order. */
  function Accepted(s: State, actions: seq<Action>, document: DocumentId, flowId: string): seq<string>
    decreases |actions|
  {
    if actions == [] then []
    else
      var a := actions[0];
      (if a.TriggerFlow? && a.document == document && a.flowId == flowId
          && Trigger(s, document, flowId, a.action, a.outcome, a.restore).1 then [a.action] else [])
      + Accepted(Step(s, a), actions[1..], document, flowId)
  }

  function Folded(flow: Flow, state: string, inputs: seq<string>): string
    decreases |inputs|
  {
    if inputs == [] then state
    else
      match Next(flow, state, inputs[0])
      case None => state
      case Some(next) => Folded(flow, next, inputs[1..])
  }

  /** Nothing in the run ends this flow. */
  predicate Undisturbed(actions: seq<Action>, document: DocumentId, flowId: string) {
    forall i :: 0 <= i < |actions| ==>
      && !(actions[i].StopFlow? && actions[i].document == document && actions[i].flowId == flowId)
      && !((actions[i].Unload? || actions[i].EndDocument?) && actions[i].document == document)
  }

  lemma FlowUntouched(s: State, a: Action, document: DocumentId, flowId: string)
    requires Ok(s) && UnitKey(document, flowId) in s.running && Undisturbed([a], document, flowId)
    requires !(a.TriggerFlow? && a.document == document && a.flowId == flowId)
    ensures document in s.documents
    ensures var key, t := UnitKey(document, flowId), Step(s, a);
            key in t.running && t.running[key] == s.running[key] && document in t.documents
            && t.documents[document] == s.documents[document]
  {
    hide Ok, Mount, Next, NormalizePath, UnitKey, UnitPrefix, NormalTarget, Trigger, Cleared;
    RunningFacts(s, document, flowId);
    UnitKeyOwner(document, document, flowId);
    assert !([a][0].Unload? && a.document == document);
    assert !([a][0].StopFlow? && a.document == document && a.flowId == flowId);
    match a
    case Unload(d) => UnitKeyOwner(d, document, flowId);
    case EndDocument(d) => UnitKeyOwner(d, document, flowId);
    case MountScreen(d, path, target, o) => MountKeeps(s, d, path, target, o);
    case StartFlow(d, f, target, o) =>
      if d in s.documents && f in s.documents[d].flows {
        MountKeeps(s, d, ScreenPath(s.documents[d].flows[f].initial), target, o);
      }
    case TriggerFlow(d, f, action, o, restore) =>
      UnitKeyInjective(d, f, document, flowId);
      if UnitKey(d, f) in s.running {
        TriggerOutcome(s, d, f, action, o, restore);
      } else {
        NoFlowNoTrigger(s, d, f, action, o, restore);
      }
    case StopFlow(d, f) => UnitKeyInjective(d, f, document, flowId);
    case RestoreFlow(d, f, state, target, remount, o) =>
      if d in s.documents && f in s.documents[d].flows {
        var flow := s.documents[d].flows[f];
        MountKeeps(s, d, ScreenPath(Kept(flow, state)), target, o);
      }
    case _ =>
  }

  lemma NoFlowNoTrigger(s: State, document: DocumentId, flowId: string, action: string, o: Outcome, restore: Outcome)
    requires UnitKey(document, flowId) !in s.running
    ensures Trigger(s, document, flowId, action, o, restore) == (s, false)
  {
  }

  /** A running flow's state is the automaton folded over the accepted actions, whatever else happens in the run. */
  lemma {:induction false} StateIsFold(s: State, actions: seq<Action>, document: DocumentId, flowId: string)
    requires Ok(s) && UnitKey(document, flowId) in s.running && Undisturbed(actions, document, flowId)
    requires document in s.documents && flowId in s.documents[document].flows
    ensures var key, t := UnitKey(document, flowId), Run(s, actions);
            key in t.running && t.running[key].state ==
              Folded(s.documents[document].flows[flowId], s.running[key].state, Accepted(s, actions, document, flowId))
    decreases |actions|
  {
    hide Ok, Trigger, Next, UnitKey;
    if actions != [] {
      var a, key := actions[0], UnitKey(document, flowId);
      assert Undisturbed([a], document, flowId) && Undisturbed(actions[1..], document, flowId);
      StepOk(s, a);
      if a.TriggerFlow? && a.document == document && a.flowId == flowId {
        TriggerOutcome(s, document, flowId, a.action, a.outcome, a.restore);
        assert Step(s, a) == Trigger(s, document, flowId, a.action, a.outcome, a.restore).0;
        hide Step;
        StateIsFold(Step(s, a), actions[1..], document, flowId);
        var rest := Accepted(Step(s, a), actions[1..], document, flowId);
        assert [a.action] + rest != [] && ([a.action] + rest)[1..] == rest && [] + rest == rest;
      } else {
        FlowUntouched(s, a, document, flowId);
        hide Step;
        StateIsFold(Step(s, a), actions[1..], document, flowId);
        var rest := Accepted(Step(s, a), actions[1..], document, flowId);
        assert [] + rest == rest;
      }
    }
  }

  // ---- The runtime's tables ----

  class ScreenRuntime {
    const store: DS.MemoryDataStore
    var documents: map<DocumentId, Document>
    var mounted: map<MountKey, Mounted>
    var nextSequence: nat
    var transients: map<nat, Transient>
    var nextTransient: nat
    var running: map<string, Running>
    var displays: seq<Display>
    var animations: map<string, nat>
    var owners: map<nat, DocumentId>
    var handlers: set<nat>
    var nextSubscription: nat

    constructor (store: DS.MemoryDataStore, displays: seq<Display>)
      ensures this.store == store && Table() == Subs.EMPTY && Subs.TableOk(Table())
      ensures Current() == State(map[], map[], 0, map[], 1, map[], displays) && Ok(Current())
    {
      this.store, this.displays := store, displays;
      documents, mounted, nextSequence, transients, nextTransient, running := map[], map[], 0, map[], 1, map[];
      animations, owners, handlers, nextSubscription := map[], map[], {}, 1;
    }

    function Table(): Subs.Table
      reads this
    {
      Subs.Table(animations, owners, handlers, nextSubscription)
    }

    function Current(): State
      reads this
    {
      State(documents, mounted, nextSequence, transients, nextTransient, running, displays)
    }

    method UnmountScreen(document: DocumentId, path: string)
      modifies this`mounted
      ensures Current() == Unmount(old(Current()), document, path)
      ensures UnmountMeans(old(Current()), document, path, Current())
    {
      hide NormalizePath, UnmountMeans;
      UnmountIsMeant(Current(), document, path);
      var normalized := NormalizePath(path);
      var all, targets, todo: set<MountKey> := mounted, {}, mounted.Keys;
      while todo != {}
        invariant mounted == all && todo <= all.Keys
        invariant targets == set k | k in all && k !in todo && Shows(all[k], document, normalized)
      {
        var k :| k in todo;
        todo := todo - {k};
        if mounted[k].document == document && mounted[k].path == normalized {
          targets := targets + {k};
        }
      }
      mounted := mounted - targets;
    }

    method ClearTarget(document: DocumentId, path: string, target: MountTarget)
      requires NormalizePath(path) == path && forall k :: k in mounted ==>
        NormalizePath(mounted[k].path) == mounted[k].path
      modifies this`mounted
      ensures Current() == old(Current()).(mounted := Cleared(old(mounted), document, path, target))
    {
      hide NormalizePath;
      if !target.stack {
        var key := ReplaceKey(target.display, target.layer);
        if key in mounted {
          UnmountScreen(mounted[key].document, mounted[key].path);
        }
        return;
      }
      var todo := mounted.Keys;
      while todo != {}
        invariant Current() == old(Current()) && todo <= mounted.Keys
        invariant forall k :: k in mounted && k !in todo ==> !SameStack(mounted[k], document, path, target)
      {
        var k :| k in todo;
        todo := todo - {k};
        if SameStack(mounted[k], document, path, target) {
          UnmountScreen(document, path);
          return;
        }
      }
    }

    method MountScreen(document: DocumentId, path: string, target: MountTarget, o: Outcome) returns (ok: bool)
      requires Ok(Current())
      modifies this`mounted, this`nextSequence
      ensures (Current(), ok) == Mount(old(Current()), document, path, target, o)
      ensures Ok(Current())
      ensures MountMeans(old(Current()), document, path, target, o, Current(), ok)
    {
      hide Ok, NormalizePath, TrimSlashes, NormalTarget, Cleared, MountMeans;
      MountIsMeant(Current(), document, path, target, o);
      ghost var before := Current();
      MountKeeps(before, document, path, target, o);
      var normal := Mountable(Current(), document, path, target, o.built);
      if normal.None? {
        return false;
      }
      var p := NormalizePath(path);
      NormalTwice(path);
      MountedNormal(before);
      ClearTarget(document, p, normal.value);
      if !o.accepted {
        return false;
      }
      mounted := mounted[KeyOf(document, p, normal.value) := Mounted(document, p, normal.value, nextSequence)];
      nextSequence := nextSequence + 1;
      return true;
    }

    method StartScreenFlow(document: DocumentId, flowId: string, target: MountTarget, o: Outcome) returns (ok: bool)
      requires Ok(Current())
      modifies this`mounted, this`nextSequence, this`running
      ensures (Current(), ok) == Start(old(Current()), document, flowId, target, o) && Ok(Current())
      ensures StartMeans(old(Current()), document, flowId, target, o, Current(), ok)
    {
      hide Ok, Mount, UnitKey, StartMeans, MountMeans;
      StartIsMeant(Current(), document, flowId, target, o);
      StartKeeps(Current(), document, flowId, target, o);
      if document !in documents || flowId !in documents[document].flows {
        return false;
      }
      var key := UnitKey(document, flowId);
      if key in running {
        return true;
      }
      var initial := documents[document].flows[flowId].initial;
      MountKeeps(Current(), document, ScreenPath(initial), target, o);
      ok := MountScreen(document, ScreenPath(initial), target, o);
      if ok {
        running := running[key := Running(document, flowId, initial, ScreenPath(initial), target)];
      }
    }

    method TriggerScreenFlow(document: DocumentId, flowId: string, action: string, o: Outcome, restore: Outcome)
      returns (ok: bool)
      requires Ok(Current())
      modifies this`mounted, this`nextSequence, this`running
      ensures (Current(), ok) == Trigger(old(Current()), document, flowId, action, o, restore) && Ok(Current())
      ensures TriggerMeans(old(Current()), document, flowId, action, o, restore, Current(), ok)
    {
      hide Ok, Mount, UnitKey, Next, MountedAt, NormalizePath, Unmount, TriggerMeans, MountMeans, UnmountMeans;
      TriggerIsMeant(Current(), document, flowId, action, o, restore);
      ghost var before := Current();
      TriggerOk(before, document, flowId, action, o, restore);
      var key := UnitKey(document, flowId);
      if key !in running {
        return false;
      }
      if document !in documents || flowId !in documents[document].flows {
        running := running - {key};
        return false;
      }
      var r := running[key];
      var next := Next(documents[document].flows[flowId], r.state, action);
      if next.None? {
        return false;
      }
      if next.value == r.state && FlowMounted(Current(), r) {
        return true;
      }
      UnmountOk(before, document, r.screen);
      UnmountScreen(document, r.screen);
      MountKeeps(Current(), document, ScreenPath(next.value), r.target, o);
      ok := MountScreen(document, ScreenPath(next.value), r.target, o);
      if !ok {
        MountKeeps(Current(), document, r.screen, r.target, restore);
        var restored := MountScreen(document, r.screen, r.target, restore);
        if restored {
          running := running[key := r.(state := r.state, screen := r.screen)];
        }
        assert running == before.running;
        return;
      }
      running := running[key := r.(state := next.value, screen := ScreenPath(next.value))];
    }

    method StopScreenFlow(document: DocumentId, flowId: string)
      modifies this`mounted, this`running
      ensures Current() == Stop(old(Current()), document, flowId)
      ensures StopMeans(old(Current()), document, flowId, Current())
    {
      hide UnitKey, NormalizePath, StopMeans, UnmountMeans;
      StopIsMeant(Current(), document, flowId);
      var key := UnitKey(document, flowId);
      if key !in running {
        return;
      }
      var screen := running[key].screen;
      running := running - {key};
      UnmountScreen(document, screen);
    }

    method StopScreenFlowsForDocument(document: DocumentId)
      requires Ok(Current())
      modifies this`mounted, this`running
      ensures Current() == WithoutFlows(old(Current()), document)
    {
      hide Ok, NormalizePath, UnitPrefix, UnitKey, FlowScreen, StoppedFlows;
      ghost var before := Current();
      var todo, flowIds: set<string> := running.Keys, {};
      while todo != {}
        invariant Current() == before && todo <= running.Keys
        invariant flowIds == set k | k in before.running && k !in todo &&
                  UnitPrefix(document) <= k :: before.running[k].flowId
      {
        var key :| key in todo;
        todo := todo - {key};
        if UnitPrefix(document) <= key {
          flowIds := flowIds + {running[key].flowId};
        }
      }
      ghost var gone: set<string> := {};
      FlowIdsName(before, document);
      NothingStopped(before, document);
      while flowIds != {}
        invariant flowIds <= (set k | k in DocumentFlows(before.running, document) :: before.running[k].flowId)
        invariant gone == set k | k in DocumentFlows(before.running, document) && before.running[k].flowId !in flowIds
        invariant Current() == StoppedFlows(before, document, gone)
      {
        var flowId :| flowId in flowIds;
        flowIds := flowIds - {flowId};
        StopOneMore(before, document, gone, flowId);
        StopScreenFlow(document, flowId);
        gone := gone + {UnitKey(document, flowId)};
      }
      assert gone == DocumentFlows(before.running, document);
    }

    method PopTransientScreensForDocument(document: DocumentId)
      modifies this`transients
      ensures Current() == WithoutTransients(old(Current()), document)
    {
      var all, todo := transients, transients.Keys;
      while todo != {}
        invariant todo <= all.Keys
        invariant transients == map i | i in all && (i in todo || all[i].document != document) :: all[i]
      {
        var id :| id in todo;
        todo := todo - {id};
        if transients[id].document == document {
          transients := transients - {id};
        }
      }
    }

    /** Enters a new subscription of the document: a store or action subscription, or a view animation that started. */
    method RegisterSubscription(document: DocumentId) returns (id: nat)
      requires Subs.TableOk(Table())
      modifies this`owners, this`handlers, this`nextSubscription
      ensures Table() == Subs.Registered(old(Table()), document) && id == old(nextSubscription) && Subs.TableOk(Table())
    {
      Subs.RegisteredOk(Table(), document);
      id := nextSubscription;
      nextSubscription := nextSubscription + 1;
      handlers := handlers + {id};
      if document != 0 {
        owners := owners[id := document];
      }
    }

    /** Ends a subscription on request, or when a view animation has come to its natural end. */
    method UnsubscribeSubscription(id: nat) returns (known: bool)
      requires 0 !in handlers && 0 !in owners
      modifies this`owners, this`handlers
      ensures Table() == Subs.Disconnected(old(Table()), id) && known == (id in old(handlers))
      ensures old(Subs.TableOk(Table())) ==> Subs.TableOk(Table())
    {
      if Subs.TableOk(Table()) {
        Subs.DisconnectedOk(Table(), id);
      }
      if id == 0 {
        return false;
      }
      owners := owners - {id};
      known := id in handlers;
      handlers := handlers - {id};
    }

    /** `id` empty means the animation cannot be addressed later; `accepted` is the backend's answer. */
    method StartEventAnimation(document: DocumentId, path: string, id: string, accepted: bool) returns (ok: bool)
      requires Subs.TableOk(Table())
      modifies this`animations, this`owners, this`handlers, this`nextSubscription
      ensures ok == accepted && Subs.TableOk(Table())
      ensures Table() == Subs.Started(old(Table()), document,
                                      if id == "" then Subs.None else Subs.Some(Subs.AnimationKey(document, path, id)),
                                      accepted)
    {
      assert 0 !in handlers && 0 !in owners;
      hide UnitKey, UnitPrefix, Subs.AnimationKey, Subs.TableOk;
      var key := Subs.AnimationKey(document, path, id);
      Subs.KeyIsPrefixed(document, path, id);
      Subs.StartedOk(Table(), document, if id == "" then Subs.None else Subs.Some(key), accepted);
      Subs.StoppedOk(Table(), key);
      if id != "" && key in animations {
        var previous := animations[key];
        animations := animations - {key};
        var known := UnsubscribeSubscription(previous);
      }
      if !accepted {
        return false;
      }
      var subscription := RegisterSubscription(document);
      if id != "" {
        animations := animations[key := subscription];
      }
      return true;
    }

    method StopEventAnimation(document: DocumentId, path: string, id: string)
      requires Subs.TableOk(Table())
      modifies this`animations, this`owners, this`handlers
      ensures Table() == Subs.Stopped(old(Table()), Subs.AnimationKey(document, path, id)) && Subs.TableOk(Table())
    {
      var key := Subs.AnimationKey(document, path, id);
      Subs.StoppedOk(Table(), key);
      if key in animations {
        var known := UnsubscribeSubscription(animations[key]);
        animations := animations - {key};
      }
    }

    /** The document's event animations end, their subscriptions with them. */
    method StopEventAnimations(document: DocumentId)
      requires 0 !in handlers && 0 !in owners
      modifies this`animations, this`owners, this`handlers
      ensures Table() == old(Table()).(
        animations := old(animations) - Subs.PrefixedKeys(old(animations).Keys, document),
        owners := old(owners) - Subs.AnimationsOf(old(Table()), document),
        handlers := old(handlers) - Subs.AnimationsOf(old(Table()), document))
    {
      hide UnitPrefix;
      var all, todo := animations, animations.Keys;
      ghost var gone: set<nat> := {};
      while todo != {}
        invariant todo <= all.Keys
        invariant animations == all - Subs.PrefixedKeys(all.Keys - todo, document)
        invariant gone == set k | k in all && k !in todo && UnitPrefix(document) <= k :: all[k]
        invariant owners == old(owners) - gone && handlers == old(handlers) - gone
      {
        var key :| key in todo;
        if UnitPrefix(document) <= key {
          var known := UnsubscribeSubscription(all[key]);
          animations := animations - {key};
          gone := gone + {all[key]};
        }
        assert Subs.PrefixedKeys(all.Keys - (todo - {key}), document)
            == Subs.PrefixedKeys(all.Keys - todo, document) + if UnitPrefix(document) <= key then {key} else {};
        todo := todo - {key};
      }
      assert all.Keys - {} == all.Keys;
      assert gone == Subs.AnimationsOf(old(Table()), document);
    }

    method ReleaseSubscriptions(document: DocumentId)
      requires 0 !in handlers && 0 !in owners
      modifies this`owners, this`handlers
      ensures Table() == old(Table()).(owners := Subs.OwnersLeft(old(owners), document),
                                       handlers := old(handlers) - Subs.OwnedBy(old(owners), document))
    {
      var all, todo := owners, owners.Keys;
      while todo != {}
        invariant todo <= all.Keys
        invariant owners == map i | i in all && (i in todo || all[i] != document) :: all[i]
        invariant handlers == old(handlers) - set i | i in all && i !in todo && all[i] == document
      {
        var id :| id in todo;
        todo := todo - {id};
        if owners[id] == document {
          var known := UnsubscribeSubscription(id);
        }
      }
    }

    method EraseMounts(document: DocumentId)
      modifies this`mounted
      ensures Current() == WithoutMounts(old(Current()), document)
    {
      var all, todo := mounted, mounted.Keys;
      while todo != {}
        invariant todo <= all.Keys
        invariant mounted == map k | k in all && (k in todo || all[k].document != document) :: all[k]
      {
        var key :| key in todo;
        todo := todo - {key};
        if mounted[key].document == document {
          mounted := mounted - {key};
        }
      }
    }

    /**
     * After unloading, no table, not even the data store, mentions the document, and no other document lost anything.
     */
    method Unload(document: DocumentId) returns (ok: bool)
      requires Ok(Current()) && store.Valid() && Subs.TableOk(Table())
      modifies this`documents, this`mounted, this`transients, this`running, this`animations, this`owners, this`handlers
      modifies store`values, store`listenerBuckets, store`listenerCount, store`active
      ensures ok == (document in old(documents)) && store.Valid() && Ok(Current()) && Subs.TableOk(Table())
      ensures Current() == if ok then WithoutDocument(old(Current()), document) else old(Current())
      ensures Table() == if ok then Subs.Without(old(Table()), document) else old(Table())
      ensures store.Current() == if ok then DS.Forgotten(old(store.Current()), document) else old(store.Current())
    {
      assert 0 !in handlers && 0 !in owners;
      hide Ok, Subs.TableOk, Subs.Without, Subs.OwnersLeft, Subs.OwnedBy, Subs.AnimationsOf, Subs.PrefixedKeys,
        WithoutFlows,
        WithoutMounts, WithoutTransients, WithoutDocument, DS.Forgotten, DS.StoreOk;
      if document !in documents {
        return false;
      }
      ghost var before, subscriptions := Current(), Table();
      UnloadIsolates(before, document);
      FlowsThenAll(before, document);
      Subs.WithoutIsolates(subscriptions, document);
      EndRunning(document);
      ghost var stopped := Table();
      Forget(document);
      Subs.StoppedThenReleased(subscriptions, stopped, document);
      ok := true;
    }

    /** The first part of unload: transient screens, running flows, event animations. */
    method EndRunning(document: DocumentId)
      requires Ok(Current()) && 0 !in handlers && 0 !in owners
      modifies this`mounted, this`transients, this`running, this`animations, this`owners, this`handlers
      ensures Current() == WithoutFlows(WithoutTransients(old(Current()), document), document)
      ensures Table() == old(Table()).(
        animations := old(animations) - Subs.PrefixedKeys(old(animations).Keys, document),
        owners := old(owners) - Subs.AnimationsOf(old(Table()), document),
        handlers := old(handlers) - Subs.AnimationsOf(old(Table()), document))
    {
      hide Ok, WithoutFlows, WithoutTransients, Subs.AnimationsOf, Subs.PrefixedKeys;
      FlowsThenAll(Current(), document);
      PopTransientScreensForDocument(document);
      StopScreenFlowsForDocument(document);
      StopEventAnimations(document);
    }

    /** The second part: the document itself, its mounts, its store entries, the subscriptions it still owns. */
    method Forget(document: DocumentId)
      requires store.Valid() && 0 !in handlers && 0 !in owners
      modifies this`documents, this`mounted, this`owners, this`handlers
      modifies store`values, store`listenerBuckets, store`listenerCount, store`active
      ensures store.Valid() && store.Current() == DS.Forgotten(old(store.Current()), document)
      ensures Current() == var s := old(Current()); WithoutMounts(s.(documents := s.documents - {document}), document)
      ensures Table() == old(Table()).(owners := Subs.OwnersLeft(old(owners), document),
                                       handlers := old(handlers) - Subs.OwnedBy(old(owners), document))
    {
      hide WithoutMounts, Subs.OwnersLeft, Subs.OwnedBy, DS.Forgotten, DS.StoreOk;
      documents := documents - {document};
      EraseMounts(document);
      store.ForgetDocument(document);
      ReleaseSubscriptions(document);
    }
  }

  lemma FlowIdsName(s: State, document: DocumentId)
    requires Ok(s)
    ensures forall k :: k in DocumentFlows(s.running, document) ==> k == UnitKey(document, s.running[k].flowId)
  {
    hide UnitPrefix, UnitKey;
    forall k | k in DocumentFlows(s.running, document) ensures k == UnitKey(document, s.running[k].flowId) {
      assert FlowOk(s, k);
      UnitKeyOwner(document, s.running[k].document, s.running[k].flowId);
    }
  }

  lemma NothingStopped(s: State, document: DocumentId)
    ensures StoppedFlows(s, document, {}) == s
  {
  }

  /** Stopping one more flow of the document. */
  lemma StopOneMore(s: State, document: DocumentId, gone: set<string>, flowId: string)
    requires Ok(s) && gone <= DocumentFlows(s.running, document) && UnitKey(document, flowId) !in gone
    requires exists k :: k in DocumentFlows(s.running, document) && s.running[k].flowId == flowId
    ensures UnitKey(document, flowId) in DocumentFlows(s.running, document)
    ensures s.running[UnitKey(document, flowId)].flowId == flowId
    ensures Stop(StoppedFlows(s, document, gone), document, flowId)
         == StoppedFlows(s, document, gone + {UnitKey(document, flowId)})
  {
    hide Ok, NormalizePath, UnitPrefix, UnitKey;
    FlowIdsName(s, document);
    var key, all := UnitKey(document, flowId), gone + {UnitKey(document, flowId)};
    forall m ensures FlowScreen(s, all, document, m) <==>
                     FlowScreen(s, gone, document, m) || Shows(m, document, NormalizePath(s.running[key].screen)) {
      if Shows(m, document, NormalizePath(s.running[key].screen)) {
        assert key in all;
      }
    }
    hide FlowScreen;
    assert Stop(StoppedFlows(s, document, gone), document, flowId).mounted == StoppedFlows(s, document, all).mounted;
  }

  /** Ending a document's parts one after the other is removing the document. */
  lemma FlowsThenAll(s: State, document: DocumentId)
    requires Ok(s)
    ensures Ok(WithoutTransients(s, document))
    ensures var t := WithoutFlows(WithoutTransients(s, document), document);
            WithoutMounts(t.(documents := t.documents - {document}), document) == WithoutDocument(s, document)
  {
    hide Ok, FlowScreen;
    ShrunkOk(s, WithoutTransients(s, document));
    var t := WithoutFlows(WithoutTransients(s, document), document);
    FlowScreensOwn(WithoutTransients(s, document), document);
    assert WithoutMounts(t, document).mounted == WithoutDocument(s, document).mounted;
  }

  lemma FlowScreensOwn(s: State, document: DocumentId)
    ensures forall m :: FlowScreen(s, DocumentFlows(s.running, document), document, m) ==> m.document == document
  {
  }

  lemma MountedNormal(s: State)
    requires Ok(s)
    ensures forall k :: k in s.mounted ==> NormalizePath(s.mounted[k].path) == s.mounted[k].path
  {
    hide NormalizePath;
    forall k | k in s.mounted ensures NormalizePath(s.mounted[k].path) == s.mounted[k].path {
      assert MountOk(s, k);
    }
  }
}
