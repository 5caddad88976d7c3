/** The state of a screen flow over whole runs, reloads of its document included. */
module FlowHistory {
  import opened Keys
  import opened Screens
  import opened Text

  /** What moves a flow: an accepted action, a start, or an update that lets it run on by a new definition. */
  datatype Input = Accepted(action: string) | Started(flow: Flow) | Reloaded(flow: Flow)

  /** The definition a flow runs by and the state it is in. */
  datatype Place = Place(flow: Flow, state: string)

  function Moved(p: Place, input: Input): Place {
    match input
    case Accepted(action) =>
      var next := Next(p.flow, p.state, action);
      if next.Some? then p.(state := next.value) else p
    case Started(flow) => Place(flow, flow.initial)
    case Reloaded(flow) => Place(flow, Kept(flow, p.state))
  }

  function Folded(p: Place, inputs: seq<Input>): Place
    decreases |inputs|
  {
    if inputs == [] then p else Folded(Moved(p, inputs[0]), inputs[1..])
  }

  // ---- What a run does to one flow ----

  function InputOf(s: State, a: Action, document: DocumentId, flowId: string): seq<Input> {
    var key := UnitKey(document, flowId);
    if a.TriggerFlow? && a.document == document && a.flowId == flowId
       && Trigger(s, document, flowId, a.action, a.outcome, a.restore).1
    then [Accepted(a.action)]
    else if key !in s.running && key in Step(s, a).running
            && document in s.documents && flowId in s.documents[document].flows
    then
      var flow := s.documents[document].flows[flowId];
      [if a.RestoreFlow? then Reloaded(flow) else Started(flow)]
    else []
  }

  function Inputs(s: State, actions: seq<Action>, document: DocumentId, flowId: string): seq<Input>
    decreases |actions|
  {
    if actions == [] then []
    else InputOf(s, actions[0], document, flowId) + Inputs(Step(s, actions[0]), actions[1..], document, flowId)
  }

  /** An update restores a flow in the state it had when the update began. */
  predicate RestoresOwn(s: State, a: Action, document: DocumentId, flowId: string, p: Place) {
    a.RestoreFlow? && a.document == document && a.flowId == flowId && UnitKey(document, flowId) !in s.running ==>
      a.state == p.state
  }

  predicate AllRestoreOwn(s: State, actions: seq<Action>, document: DocumentId, flowId: string, p: Place)
    decreases |actions|
  {
    actions == [] ||
    (RestoresOwn(s, actions[0], document, flowId, p) &&
     AllRestoreOwn(Step(s, actions[0]), actions[1..], document, flowId,
                   Folded(p, InputOf(s, actions[0], document, flowId))))
  }

  /** A running flow is in this place. */
  predicate IsAt(s: State, document: DocumentId, flowId: string, p: Place) {
    var key := UnitKey(document, flowId);
    key in s.running ==>
      && document in s.documents && flowId in s.documents[document].flows
      && Place(s.documents[document].flows[flowId], s.running[key].state) == p
  }

  lemma FoldedOne(p: Place, input: Input)
    ensures Folded(p, [input]) == Moved(p, input) && Folded(p, []) == p
  {
    assert [input][1..] == [];
  }

  lemma {:induction false} FoldedConcat(p: Place, a: seq<Input>, b: seq<Input>)
    ensures Folded(p, a + b) == Folded(Folded(p, a), b)
    decreases |a|
  {
    hide Moved;
    if a == [] {
      assert a + b == b;
    } else {
      assert (a + b)[1..] == a[1..] + b;
      FoldedConcat(Moved(p, a[0]), a[1..], b);
    }
  }

  /** A flow that comes up was started or restored. */
  lemma FlowEnters(s: State, a: Action, document: DocumentId, flowId: string)
    requires Ok(s) && UnitKey(document, flowId) !in s.running && UnitKey(document, flowId) in Step(s, a).running
    ensures document in s.documents && flowId in s.documents[document].flows
    ensures Step(s, a).documents == s.documents
    ensures (a.StartFlow? || a.RestoreFlow?) && a.document == document && a.flowId == flowId
    ensures var flow := s.documents[document].flows[flowId];
            Step(s, a).running[UnitKey(document, flowId)].state
            == if a.RestoreFlow? then Kept(flow, a.state) else flow.initial
  {
    hide Ok, Mount, Next, NormalizePath, UnitKey, UnitPrefix, NormalTarget, Trigger, Cleared;
    match a
    case MountScreen(d, path, target, o) => MountKeeps(s, d, path, target, o);
    case StartFlow(d, f, target, o) =>
      UnitKeyInjective(d, f, document, flowId);
      if d in s.documents && f in s.documents[d].flows {
        MountKeeps(s, d, ScreenPath(s.documents[d].flows[f].initial), target, o);
      }
    case TriggerFlow(d, f, action, o, restore) =>
      if UnitKey(d, f) in s.running {
        TriggerOutcome(s, d, f, action, o, restore);
      } else {
        NoFlowNoTrigger(s, d, f, action, o, restore);
      }
    case RestoreFlow(d, f, state, target, remount, o) =>
      UnitKeyInjective(d, f, document, flowId);
      if d in s.documents && f in s.documents[d].flows {
        MountKeeps(s, d, ScreenPath(Kept(s.documents[d].flows[f], state)), target, o);
      }
    case _ =>
  }

  lemma FlowLeaves(s: State, a: Action, document: DocumentId, flowId: string)
    requires Ok(s) && !Undisturbed([a], document, flowId)
    ensures UnitKey(document, flowId) !in Step(s, a).running
  {
    hide Ok, Mount, NormalizePath, UnitKey, UnitPrefix, NormalTarget, Trigger, Cleared, Start, Restored;
    UnitKeyOwner(document, document, flowId);
  }

  /** One action moves the flow exactly by its input. */
  lemma StepMoves(s: State, a: Action, document: DocumentId, flowId: string, p: Place)
    requires Ok(s) && IsAt(s, document, flowId, p) && RestoresOwn(s, a, document, flowId, p)
    ensures IsAt(Step(s, a), document, flowId, Folded(p, InputOf(s, a, document, flowId)))
  {
    hide Ok, Trigger, Next, UnitKey, Folded, Mount;
    var key := UnitKey(document, flowId);
    FoldedOne(p, Accepted(""));
    if key in Step(s, a).running {
      if key !in s.running {
        FlowEnters(s, a, document, flowId);
        hide Step;
        var flow := s.documents[document].flows[flowId];
        FoldedOne(p, if a.RestoreFlow? then Reloaded(flow) else Started(flow));
      } else if a.TriggerFlow? && a.document == document && a.flowId == flowId {
        TriggerOutcome(s, document, flowId, a.action, a.outcome, a.restore);
        assert Step(s, a) == Trigger(s, document, flowId, a.action, a.outcome, a.restore).0;
        FoldedOne(p, Accepted(a.action));
      } else {
        if !Undisturbed([a], document, flowId) {
          FlowLeaves(s, a, document, flowId);
        }
        FlowUntouched(s, a, document, flowId);
      }
    }
  }

  /**
   * Over every run, with starts, stops, failed actions and reloads of the document in between, a flow that runs in
   * the end is in the state its inputs lead to; an update that restores what it found counts as one input.
   */
  lemma {:induction false} StateIsHistory(s: State, actions: seq<Action>, document: DocumentId, flowId: string,
                                           p: Place)
    requires Ok(s) && IsAt(s, document, flowId, p) && AllRestoreOwn(s, actions, document, flowId, p)
    ensures IsAt(Run(s, actions), document, flowId, Folded(p, Inputs(s, actions, document, flowId)))
    decreases |actions|
  {
    hide Ok, Step, IsAt, InputOf, RestoresOwn;
    if actions == [] {
      FoldedOne(p, Accepted(""));
    } else {
      var a, first := actions[0], InputOf(s, actions[0], document, flowId);
      StepOk(s, a);
      StepMoves(s, a, document, flowId, p);
      StateIsHistory(Step(s, a), actions[1..], document, flowId, Folded(p, first));
      FoldedConcat(p, first, Inputs(Step(s, a), actions[1..], document, flowId));
    }
  }
}
