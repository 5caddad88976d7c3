/** The style cascade: layers of partial styles merged so that later layers win field by field. */
module StyleCascade {

  /** A style field; colour fields may hold a reference into the theme's colour table. */
  datatype Field = Color(index: nat) | FontName | Plain(index: nat)

  /** The fields a style sets. */
  type Style = map<Field, string>

  datatype PartStyle = PartStyle(style: Style, states: map<string, Style>)

  datatype StyleSet = StyleSet(style: Style, states: map<string, Style>, parts: map<string, PartStyle>)

  const NO_STYLE := StyleSet(map[], map[], map[])
  const NO_PART := PartStyle(map[], map[])

  datatype Theme = Theme(styles: map<string, StyleSet>, colors: map<string, string>)

  /** What of a node the cascade reads. */
  datatype Node = Node(typeKey: string, refs: seq<string>, own: StyleSet)

  // ---- Merging ----

  function StateAt(states: map<string, Style>, name: string): Style {
    if name in states then states[name] else map[]
  }

  function PartAt(parts: map<string, PartStyle>, name: string): PartStyle {
    if name in parts then parts[name] else NO_PART
  }

  function MergedStates(a: map<string, Style>, b: map<string, Style>): map<string, Style> {
    map k | k in a.Keys + b.Keys :: StateAt(a, k) + StateAt(b, k)
  }

  function MergedPart(a: PartStyle, b: PartStyle): PartStyle {
    PartStyle(a.style + b.style, MergedStates(a.states, b.states))
  }

  function MergedParts(a: map<string, PartStyle>, b: map<string, PartStyle>): map<string, PartStyle> {
    map k | k in a.Keys + b.Keys :: MergedPart(PartAt(a, k), PartAt(b, k))
  }

  function Merged(a: StyleSet, b: StyleSet): StyleSet {
    StyleSet(a.style + b.style, MergedStates(a.states, b.states), MergedParts(a.parts, b.parts))
  }

  lemma StyleAssociative(a: Style, b: Style, c: Style)
    ensures a + b + c == a + (b + c)
  {
  }

  lemma StatesAssociative(a: map<string, Style>, b: map<string, Style>, c: map<string, Style>)
    ensures MergedStates(MergedStates(a, b), c) == MergedStates(a, MergedStates(b, c))
  {
    hide StateAt;
    var x, y := MergedStates(MergedStates(a, b), c), MergedStates(a, MergedStates(b, c));
    assert x.Keys == y.Keys;
    forall k | k in x ensures x[k] == y[k] {
      StateAtMerged(a, b, k);
      StateAtMerged(b, c, k);
      StyleAssociative(StateAt(a, k), StateAt(b, k), StateAt(c, k));
    }
  }

  lemma StateAtMerged(a: map<string, Style>, b: map<string, Style>, name: string)
    ensures StateAt(MergedStates(a, b), name) == StateAt(a, name) + StateAt(b, name)
  {
  }

  lemma PartAtMerged(a: map<string, PartStyle>, b: map<string, PartStyle>, name: string)
    ensures PartAt(MergedParts(a, b), name) == MergedPart(PartAt(a, name), PartAt(b, name))
  {
    assert MergedStates(map[], map[]) == map[];
  }

  lemma PartAssociative(a: PartStyle, b: PartStyle, c: PartStyle)
    ensures MergedPart(MergedPart(a, b), c) == MergedPart(a, MergedPart(b, c))
  {
    hide MergedStates;
    StatesAssociative(a.states, b.states, c.states);
    StyleAssociative(a.style, b.style, c.style);
  }

  lemma PartsAssociative(a: map<string, PartStyle>, b: map<string, PartStyle>, c: map<string, PartStyle>)
    ensures MergedParts(MergedParts(a, b), c) == MergedParts(a, MergedParts(b, c))
  {
    hide MergedPart;
    var x, y := MergedParts(MergedParts(a, b), c), MergedParts(a, MergedParts(b, c));
    assert x.Keys == y.Keys;
    forall k | k in x ensures x[k] == y[k] {
      PartAtMerged(a, b, k);
      PartAtMerged(b, c, k);
      PartAssociative(PartAt(a, k), PartAt(b, k), PartAt(c, k));
    }
  }

  /** Merging layers is associative, ... */
  lemma MergeAssociative(a: StyleSet, b: StyleSet, c: StyleSet)
    ensures Merged(Merged(a, b), c) == Merged(a, Merged(b, c))
  {
    hide MergedStates, MergedParts;
    StyleAssociative(a.style, b.style, c.style);
    StatesAssociative(a.states, b.states, c.states);
    PartsAssociative(a.parts, b.parts, c.parts);
  }

  /** ... and the empty style set is its identity. */
  lemma MergeIdentity(a: StyleSet)
    ensures Merged(NO_STYLE, a) == a && Merged(a, NO_STYLE) == a
  {
    StatesIdentity(a.states);
    forall k | k in a.parts ensures MergedPart(NO_PART, a.parts[k]) == a.parts[k] == MergedPart(a.parts[k], NO_PART) {
      StatesIdentity(a.parts[k].states);
      StyleIdentity(a.parts[k].style);
    }
    StyleIdentity(a.style);
    hide MergedPart;
    assert MergedParts(map[], a.parts) == a.parts;
    assert MergedParts(a.parts, map[]) == a.parts;
  }

  lemma StyleIdentity(s: Style)
    ensures map[] + s == s && s + map[] == s
  {
  }

  lemma StatesIdentity(a: map<string, Style>)
    ensures MergedStates(map[], a) == a && MergedStates(a, map[]) == a
  {
    forall k | k in a ensures map[] + a[k] == a[k] && a[k] + map[] == a[k] {
      StyleIdentity(a[k]);
    }
  }

  // ---- Reading a composed style: the last layer that sets a field wins ----

  /** Where in a style set a field lives. */
  datatype Place = Base | InState(state: string) | InPart(part: string) | InPartState(part: string, state: string)

  function At(s: StyleSet, p: Place): Style {
    match p
    case Base => s.style
    case InState(state) => StateAt(s.states, state)
    case InPart(part) => PartAt(s.parts, part).style
    case InPartState(part, state) => StateAt(PartAt(s.parts, part).states, state)
  }

  lemma AtMerged(a: StyleSet, b: StyleSet, p: Place)
    ensures At(Merged(a, b), p) == At(a, p) + At(b, p)
  {
    match p
    case Base =>
    case InState(state) => StateAtMerged(a.states, b.states, state);
    case InPart(part) => PartAtMerged(a.parts, b.parts, part);
    case InPartState(part, state) =>
      PartAtMerged(a.parts, b.parts, part);
      StateAtMerged(PartAt(a.parts, part).states, PartAt(b.parts, part).states, state);
  }

  /** Layers merged one after the other onto an empty style set. */
  function Folded(layers: seq<StyleSet>): StyleSet {
    if layers == [] then NO_STYLE else Merged(Folded(layers[..|layers| - 1]), layers[|layers| - 1])
  }

  lemma {:induction false} FoldedConcat(a: seq<StyleSet>, b: seq<StyleSet>)
    ensures Folded(a + b) == Merged(Folded(a), Folded(b))
    decreases |b|
  {
    hide Merged;
    if b == [] {
      assert a + b == a;
      MergeIdentity(Folded(a));
    } else {
      var front, last := b[..|b| - 1], b[|b| - 1];
      assert (a + b)[..|a + b| - 1] == a + front;
      FoldedConcat(a, front);
      MergeAssociative(Folded(a), Folded(front), last);
    }
  }

  predicate Sets(layer: StyleSet, p: Place, f: Field) {
    f in At(layer, p)
  }

  /** A composed field is the one the last layer that sets it gives it, and is unset when no layer does. */
  lemma {:induction false} LastSetterWins(layers: seq<StyleSet>, p: Place, f: Field)
    ensures f in At(Folded(layers), p) <==> exists i :: 0 <= i < |layers| && Sets(layers[i], p, f)
    ensures forall i :: 0 <= i < |layers| && Sets(layers[i], p, f)
                        && (forall j :: i < j < |layers| ==> !Sets(layers[j], p, f))
              ==> f in At(Folded(layers), p) && At(Folded(layers), p)[f] == At(layers[i], p)[f]
    decreases |layers|
  {
    hide At, Merged;
    if layers == [] {
      assert At(NO_STYLE, p) == map[] by { NothingSet(p); }
    } else {
      var front, last := layers[..|layers| - 1], layers[|layers| - 1];
      LastSetterWins(front, p, f);
      AtMerged(Folded(front), last, p);
      if Sets(last, p, f) {
        assert Sets(layers[|layers| - 1], p, f);
      }
      assert forall i :: 0 <= i < |front| ==> front[i] == layers[i];
    }
  }

  lemma NothingSet(p: Place)
    ensures At(NO_STYLE, p) == map[]
  {
  }

  // ---- Which layers a node gets ----

  function Named(styles: map<string, StyleSet>, name: string): seq<StyleSet> {
    if name in styles then [styles[name]] else []
  }

  function ThemeStyles(themes: map<string, Theme>, id: string): map<string, StyleSet> {
    if id in themes then themes[id].styles else map[]
  }

  /** Style references in order: the document's own style of that name, else the theme's, else nothing. */
  function RefLayers(refs: seq<string>, local: map<string, StyleSet>, themed: map<string, StyleSet>): seq<StyleSet> {
    if refs == [] then []
    else
      var n := |refs| - 1;
      RefLayers(refs[..n], local, themed) + if refs[n] in local then [local[refs[n]]] else Named(themed, refs[n])
  }

  function Layers(builtin: map<string, StyleSet>, themes: map<string, Theme>, themeId: string,
                  local: map<string, StyleSet>, node: Node): seq<StyleSet>
  {
    var themed := ThemeStyles(themes, themeId);
    Named(builtin, "all") + Named(builtin, node.typeKey) + Named(themed, "all") + Named(themed, node.typeKey)
    + RefLayers(node.refs, local, themed) + [node.own]
  }

  function Composed(builtin: map<string, StyleSet>, themes: map<string, Theme>, themeId: string,
                    local: map<string, StyleSet>, node: Node): StyleSet
  {
    Folded(Layers(builtin, themes, themeId, local, node))
  }

  /** Whatever the themes say, what the node itself sets is what it gets. */
  lemma NodeWins(builtin: map<string, StyleSet>, themes: map<string, Theme>, themeId: string,
                 local: map<string, StyleSet>, node: Node, p: Place, f: Field)
    requires f in At(node.own, p)
    ensures f in At(Composed(builtin, themes, themeId, local, node), p)
    ensures At(Composed(builtin, themes, themeId, local, node), p)[f] == At(node.own, p)[f]
  {
    hide At, RefLayers, Folded;
    var layers := Layers(builtin, themes, themeId, local, node);
    LastSetterWins(layers, p, f);
    assert Sets(layers[|layers| - 1], p, f);
  }

  // ---- Loops ----

  method MergeStates(destination: map<string, Style>, source: map<string, Style>) returns (merged: map<string, Style>)
    ensures merged == MergedStates(destination, source)
  {
    merged := destination;
    var todo := source.Keys;
    while todo != {}
      invariant todo <= source.Keys
      invariant merged.Keys == destination.Keys + (source.Keys - todo)
      invariant forall k :: k in merged ==>
                  merged[k] == if k in todo then destination[k] else StateAt(destination, k) + StateAt(source, k)
    {
      var name :| name in todo;
      todo := todo - {name};
      merged := merged[name := StateAt(merged, name) + source[name]];
    }
  }

  /** The parts while some of the source's parts are still to be merged. */
  function MergingParts(a: map<string, PartStyle>, b: map<string, PartStyle>,
                        todo: set<string>): map<string, PartStyle> {
    MergedParts(a, b - todo)
  }

  lemma MergingOneMore(a: map<string, PartStyle>, b: map<string, PartStyle>, todo: set<string>, name: string)
    requires name in todo && name in b
    ensures MergingParts(a, b, todo)[name := MergedPart(PartAt(MergingParts(a, b, todo), name), b[name])]
         == MergingParts(a, b, todo - {name})
  {
    PartKept(PartAt(a, name));
    hide MergedPart;
  }

  lemma PartKept(part: PartStyle)
    ensures MergedPart(part, NO_PART) == part
  {
    StatesIdentity(part.states);
    StyleIdentity(part.style);
  }

  lemma MergingEnds(a: map<string, PartStyle>, b: map<string, PartStyle>)
    ensures MergingParts(a, b, b.Keys) == a
    ensures MergingParts(a, b, {}) == MergedParts(a, b)
  {
    forall k | k in a ensures MergedPart(a[k], NO_PART) == a[k] {
      PartKept(a[k]);
    }
    hide MergedPart;
    assert b - b.Keys == map[] && b - {} == b;
  }

  method MergeStyleSetLayer(destination: StyleSet, source: StyleSet) returns (merged: StyleSet)
    ensures merged == Merged(destination, source)
  {
    hide MergedStates, MergedPart, MergedParts, MergingParts;
    var states := MergeStates(destination.states, source.states);
    var parts := destination.parts;
    var todo := source.parts.Keys;
    MergingEnds(destination.parts, source.parts);
    while todo != {}
      invariant todo <= source.parts.Keys
      invariant parts == MergingParts(destination.parts, source.parts, todo)
    {
      var name :| name in todo;
      MergingOneMore(destination.parts, source.parts, todo, name);
      var part := MergePart(PartAt(parts, name), source.parts[name]);
      todo := todo - {name};
      parts := parts[name := part];
    }
    merged := StyleSet(destination.style + source.style, states, parts);
  }

  method MergePart(destination: PartStyle, source: PartStyle) returns (merged: PartStyle)
    ensures merged == MergedPart(destination, source)
  {
    var states := MergeStates(destination.states, source.states);
    merged := PartStyle(destination.style + source.style, states);
  }

  method MergeNamed(destination: StyleSet, styles: map<string, StyleSet>, name: string, ghost layers: seq<StyleSet>)
    returns (merged: StyleSet)
    requires destination == Folded(layers)
    ensures merged == Folded(layers + Named(styles, name))
  {
    merged := destination;
    assert layers + [] == layers;
    if name in styles {
      assert (layers + [styles[name]])[..|layers|] == layers;
      merged := MergeStyleSetLayer(destination, styles[name]);
    }
  }

  method MergeBase(builtin: map<string, StyleSet>, themed: map<string, StyleSet>, typeKey: string)
    returns (merged: StyleSet)
    ensures merged
            == Folded(Named(builtin, "all") + Named(builtin, typeKey) + Named(themed, "all") + Named(themed, typeKey))
  {
    hide Merged, Folded, Named;
    FoldedNothing();
    ghost var layers: seq<StyleSet> := [];
    merged := MergeNamed(NO_STYLE, builtin, "all", layers);
    layers := layers + Named(builtin, "all");
    assert layers == Named(builtin, "all");
    merged := MergeNamed(merged, builtin, typeKey, layers);
    layers := layers + Named(builtin, typeKey);
    merged := MergeNamed(merged, themed, "all", layers);
    layers := layers + Named(themed, "all");
    merged := MergeNamed(merged, themed, typeKey, layers);
  }

  method MergeRefs(destination: StyleSet, refs: seq<string>, local: map<string, StyleSet>,
                   themed: map<string, StyleSet>, ghost layers: seq<StyleSet>)
    returns (merged: StyleSet)
    requires destination == Folded(layers)
    ensures merged == Folded(layers + RefLayers(refs, local, themed))
  {
    hide Merged, Folded, Named;
    merged := destination;
    assert refs[..0] == [] && layers + [] == layers;
    for i := 0 to |refs|
      invariant merged == Folded(layers + RefLayers(refs[..i], local, themed))
    {
      assert refs[..i + 1][..i] == refs[..i];
      ghost var sofar := layers + RefLayers(refs[..i], local, themed);
      if refs[i] in local {
        FoldedOneMore(sofar, local[refs[i]]);
        merged := MergeStyleSetLayer(merged, local[refs[i]]);
        assert sofar + [local[refs[i]]] == layers + RefLayers(refs[..i + 1], local, themed);
      } else {
        merged := MergeNamed(merged, themed, refs[i], sofar);
        assert sofar + Named(themed, refs[i]) == layers + RefLayers(refs[..i + 1], local, themed);
      }
    }
    assert refs[..|refs|] == refs;
  }

  method ComposeStyleSet(builtin: map<string, StyleSet>, themes: map<string, Theme>, themeId: string,
                         local: map<string, StyleSet>, node: Node) returns (composed: StyleSet)
    ensures composed == Composed(builtin, themes, themeId, local, node)
  {
    hide Merged, Folded, Named, RefLayers;
    var themed := if themeId in themes then themes[themeId].styles else map[];
    composed := MergeBase(builtin, themed, node.typeKey);
    ghost var base := Named(builtin, "all") + Named(builtin, node.typeKey) + Named(themed, "all")
        + Named(themed, node.typeKey);
    composed := MergeRefs(composed, node.refs, local, themed, base);
    FoldedOneMore(base + RefLayers(node.refs, local, themed), node.own);
    composed := MergeStyleSetLayer(composed, node.own);
  }

  lemma FoldedNothing()
    ensures Folded([]) == NO_STYLE
  {
  }

  lemma FoldedOneMore(layers: seq<StyleSet>, layer: StyleSet)
    ensures Folded(layers + [layer]) == Merged(Folded(layers), layer)
  {
    hide Merged;
    assert (layers + [layer])[..|layers|] == layers;
  }

  // ---- Colour references ----

  const COLOR_PREFIX := "${color."

  datatype ColorPath = NotAReference | Malformed | Path(path: string)

  function ColorReference(value: string): ColorPath {
    if !(COLOR_PREFIX <= value) then NotAReference
    else if |value| <= |COLOR_PREFIX| + 1 || value[|value| - 1] != '}' then Malformed
    else Path(value[|COLOR_PREFIX|..|value| - 1])
  }

  /** A colour reference becomes the colour it names; anything that does not resolve is kept as written. */
  function ResolvedColor(themes: map<string, Theme>, themeId: string, value: string): string {
    var reference := ColorReference(value);
    if reference.Path? && themeId in themes && reference.path in themes[themeId].colors
    then themes[themeId].colors[reference.path]
    else value
  }

  function ResolvedFields(themes: map<string, Theme>, themeId: string, style: Style): Style {
    map f | f in style :: if f.Color? then ResolvedColor(themes, themeId, style[f]) else style[f]
  }

  function ResolvedStates(themes: map<string, Theme>, themeId: string, states: map<string, Style>): map<string, Style> {
    map k | k in states :: ResolvedFields(themes, themeId, states[k])
  }

  function ResolvedSet(themes: map<string, Theme>, themeId: string, s: StyleSet): StyleSet {
    StyleSet(ResolvedFields(themes, themeId, s.style), ResolvedStates(themes, themeId, s.states),
             map k | k in s.parts :: PartStyle(ResolvedFields(themes, themeId, s.parts[k].style),
                                               ResolvedStates(themes, themeId, s.parts[k].states)))
  }

  /** Resolving colours reaches every place of a style set and touches nothing but colour fields. */
  lemma ResolvedEverywhere(themes: map<string, Theme>, themeId: string, s: StyleSet, p: Place)
    ensures At(ResolvedSet(themes, themeId, s), p) == ResolvedFields(themes, themeId, At(s, p))
  {
    assert ResolvedFields(themes, themeId, map[]) == map[];
  }

  /** Resolving the composed style is composing the resolved layers, at every place. */
  lemma ResolveCommutes(themes: map<string, Theme>, themeId: string, a: StyleSet, b: StyleSet, p: Place)
    ensures At(ResolvedSet(themes, themeId, Merged(a, b)), p)
         == At(Merged(ResolvedSet(themes, themeId, a), ResolvedSet(themes, themeId, b)), p)
  {
    hide At, Merged, ResolvedSet, ResolvedFields;
    ResolvedEverywhere(themes, themeId, Merged(a, b), p);
    ResolvedEverywhere(themes, themeId, a, p);
    ResolvedEverywhere(themes, themeId, b, p);
    AtMerged(a, b, p);
    AtMerged(ResolvedSet(themes, themeId, a), ResolvedSet(themes, themeId, b), p);
    ResolvedUnion(themes, themeId, At(a, p), At(b, p));
  }

  lemma ResolvedUnion(themes: map<string, Theme>, themeId: string, a: Style, b: Style)
    ensures ResolvedFields(themes, themeId, a + b) == ResolvedFields(themes, themeId, a)
            + ResolvedFields(themes, themeId, b)
  {
    hide ResolvedColor;
  }
}
