/** Resolved styles: the pure resolver, and the revision-guarded cache and interning table in front of it. */
module StyleCache {
  import opened FontChain
  import opened StyleCascade

  /** Everything outside a document that resolving a style reads. */
  datatype Tables = Tables(builtin: map<string, StyleSet>, themes: map<string, Theme>, fonts: Fonts,
                           defaults: map<string, string>)

  /** Everything of a document that resolving a style reads besides the node. */
  datatype Scope = Scope(local: map<string, StyleSet>, themeId: string, language: string)

  datatype Resolved = Resolved(looks: StyleSet, font: ResolvedFont)

  datatype Option<T> = None | Some(value: T)

  // ---- The resolver ----

  /** The font of a node that asks for none: the language's default if it is found, else the font named default. */
  function DefaultFont(t: Tables, language: string): ResolvedFont {
    var chosen := if language in t.defaults then t.defaults[language] else "";
    var font := if chosen == "" then NO_FONT else FontFor(t.fonts, chosen);
    if font.id != "" || font.src != "" || font.natives != [] then font else FontFor(t.fonts, "default")
  }

  function PickedFont(t: Tables, language: string, style: Style): ResolvedFont {
    if FontName in style && style[FontName] != "" then FontFor(t.fonts, style[FontName]) else DefaultFont(t, language)
  }

  function ResolveStyle(t: Tables, scope: Scope, node: Node): Resolved {
    var composed := ResolvedSet(t.themes, scope.themeId,
        Composed(t.builtin, t.themes, scope.themeId, scope.local, node));
    Resolved(composed, PickedFont(t, scope.language, composed.style))
  }

  // ---- What a resolved style is, in terms of the sources it comes from ----

  /** Where a node's style comes from, lowest first; its references come before what it sets itself. */
  function Source(t: Tables, scope: Scope, node: Node, rank: nat): Option<StyleSet> {
    var themed := if scope.themeId in t.themes then t.themes[scope.themeId].styles else map[];
    if rank == 0 then Lookup(t.builtin, "all")
    else if rank == 1 then Lookup(t.builtin, node.typeKey)
    else if rank == 2 then Lookup(themed, "all")
    else if rank == 3 then Lookup(themed, node.typeKey)
    else if rank < 4 + |node.refs| then
      var name := node.refs[rank - 4];
      if name in scope.local then Some(scope.local[name]) else Lookup(themed, name)
    else if rank == 4 + |node.refs| then Some(node.own)
    else None
  }

  function Lookup(styles: map<string, StyleSet>, name: string): Option<StyleSet> {
    if name in styles then Some(styles[name]) else None
  }

  /** The style set gives the field this value at this place. */
  predicate Gives(s: StyleSet, p: Place, f: Field, value: string) {
    match p
    case Base => f in s.style && s.style[f] == value
    case InState(x) => x in s.states && f in s.states[x] && s.states[x][f] == value
    case InPart(q) => q in s.parts && f in s.parts[q].style && s.parts[q].style[f] == value
    case InPartState(q, x) =>
      q in s.parts && x in s.parts[q].states && f in s.parts[q].states[x] && s.parts[q].states[x][f] == value
  }

  ghost predicate SourceGives(t: Tables, scope: Scope, node: Node, rank: nat, p: Place, f: Field, value: string) {
    Source(t, scope, node, rank).Some? && Gives(Source(t, scope, node, rank).value, p, f, value)
  }

  /** The highest source that gives the field anything at this place gives it this value. */
  ghost predicate Wins(t: Tables, scope: Scope, node: Node, rank: nat, p: Place, f: Field, value: string) {
    && SourceGives(t, scope, node, rank, p, f, value)
    && forall higher: nat, other :: rank < higher ==> !SourceGives(t, scope, node, higher, p, f, other)
  }

  /** The value is a colour field's reference to this path, and the document's theme has a colour there. */
  predicate Refers(t: Tables, scope: Scope, f: Field, value: string, path: string) {
    && f.Color? && path != "" && value == "${color." + path + "}"
    && scope.themeId in t.themes && path in t.themes[scope.themeId].colors
  }

  /** A reference the theme resolves shows the theme's colour, every other value shows as it is. */
  ghost predicate Displays(t: Tables, scope: Scope, f: Field, value: string, shown: string) {
    && (forall path :: Refers(t, scope, f, value, path) ==> shown == t.themes[scope.themeId].colors[path])
    && ((forall path :: !Refers(t, scope, f, value, path)) ==> shown == value)
  }

  /** Every field is what its highest source gives it, colours resolved, and no other field is there. */
  ghost predicate LooksMean(t: Tables, scope: Scope, node: Node, looks: StyleSet) {
    && (forall rank: nat, p, f, value :: Wins(t, scope, node, rank, p, f, value) ==>
          exists shown :: Gives(looks, p, f, shown) && Displays(t, scope, f, value, shown))
    && (forall p, f, shown :: Gives(looks, p, f, shown) ==>
          exists rank: nat, value :: Wins(t, scope, node, rank, p, f, value) && Displays(t, scope, f, value, shown))
  }

  /** The font asked for by name; without one the language's default if it is registered, else the font "default". */
  ghost predicate FontMeans(t: Tables, scope: Scope, looks: StyleSet, font: ResolvedFont) {
    if FontName in looks.style && looks.style[FontName] != "" then IsFont(t.fonts, looks.style[FontName], font)
    else if scope.language in t.defaults && t.defaults[scope.language] != ""
            && t.defaults[scope.language] in t.fonts
    then IsFont(t.fonts, t.defaults[scope.language], font)
    else IsFont(t.fonts, "default", font)
  }

  ghost predicate StyleMeans(t: Tables, scope: Scope, node: Node, style: Resolved) {
    LooksMean(t, scope, node, style.looks) && FontMeans(t, scope, style.looks, style.font)
  }

  lemma GivesIs(s: StyleSet, p: Place, f: Field, value: string)
    ensures Gives(s, p, f, value) <==> f in At(s, p) && At(s, p)[f] == value
  {
  }

  /** The layers of the cascade are the sources, without the missing ones, lowest first. */
  lemma {:induction false} LayersAre(t: Tables, scope: Scope, node: Node, n: nat) returns (ranks: seq<nat>)
    requires n <= 5 + |node.refs|
    ensures |ranks| == |Below(t, scope, node, n)|
    ensures forall i :: 0 <= i < |ranks| ==>
              ranks[i] < n && Source(t, scope, node, ranks[i]) == Some(Below(t, scope, node, n)[i])
    ensures forall i, j :: 0 <= i < j < |ranks| ==> ranks[i] < ranks[j]
    ensures forall rank: nat :: rank < n && Source(t, scope, node, rank).Some? ==>
              exists i :: 0 <= i < |ranks| && ranks[i] == rank
    decreases n
  {
    hide Source;
    if n == 0 {
      ranks := [];
    } else {
      var before := LayersAre(t, scope, node, n - 1);
      if Source(t, scope, node, n - 1).Some? {
        ranks := before + [n - 1];
        assert ranks[|before|] == n - 1;
        forall rank: nat | rank < n && Source(t, scope, node, rank).Some?
          ensures exists i :: 0 <= i < |ranks| && ranks[i] == rank
        {
          if rank < n - 1 {
            var i :| 0 <= i < |before| && before[i] == rank;
            assert ranks[i] == rank;
          }
        }
      } else {
        ranks := before;
      }
    }
  }

  /** The sources below a rank that are there. */
  function Below(t: Tables, scope: Scope, node: Node, n: nat): seq<StyleSet> {
    if n == 0 then []
    else
      var s := Source(t, scope, node, n - 1);
      Below(t, scope, node, n - 1) + if s.Some? then [s.value] else []
  }

  lemma {:induction false} RefsBelow(t: Tables, scope: Scope, node: Node, n: nat)
    requires n <= |node.refs|
    ensures Below(t, scope, node, 4 + n)
            == Below(t, scope, node, 4) + RefLayers(node.refs[..n], scope.local, ThemeStyles(t.themes, scope.themeId))
    decreases n
  {
    if n == 0 {
      assert node.refs[..0] == [];
    } else {
      RefsBelow(t, scope, node, n - 1);
      assert node.refs[..n][..n - 1] == node.refs[..n - 1];
      assert node.refs[..n][n - 1] == node.refs[n - 1];
    }
  }

  lemma BaseBelow(t: Tables, scope: Scope, node: Node)
    ensures var themed := ThemeStyles(t.themes, scope.themeId);
            Below(t, scope, node, 4) == Named(t.builtin, "all") + Named(t.builtin, node.typeKey)
                                        + Named(themed, "all") + Named(themed, node.typeKey)
  {
    assert Below(t, scope, node, 0) == [];
    assert Below(t, scope, node, 1) == Named(t.builtin, "all");
    assert Below(t, scope, node, 2) == Below(t, scope, node, 1) + Named(t.builtin, node.typeKey);
    assert Below(t, scope, node, 3) == Below(t, scope, node, 2) + Named(ThemeStyles(t.themes, scope.themeId), "all");
    assert Below(t, scope, node, 4)
        == Below(t, scope, node, 3) + Named(ThemeStyles(t.themes, scope.themeId), node.typeKey);
  }

  lemma AllBelow(t: Tables, scope: Scope, node: Node)
    ensures Below(t, scope, node, 5 + |node.refs|) == Layers(t.builtin, t.themes, scope.themeId, scope.local, node)
  {
    hide RefLayers, Named;
    BaseBelow(t, scope, node);
    RefsBelow(t, scope, node, |node.refs|);
    assert node.refs[..|node.refs|] == node.refs;
    assert Source(t, scope, node, 4 + |node.refs|) == Some(node.own);
  }

  lemma NoSourceAbove(t: Tables, scope: Scope, node: Node, rank: nat)
    requires rank >= 5 + |node.refs|
    ensures Source(t, scope, node, rank).None?
  {
  }

  /** The composed style gives a field exactly what the highest source gives it. */
  lemma ComposedMeans(t: Tables, scope: Scope, node: Node, p: Place, f: Field)
    ensures var composed := Composed(t.builtin, t.themes, scope.themeId, scope.local, node);
            && (forall rank: nat, value :: Wins(t, scope, node, rank, p, f, value) ==> Gives(composed, p, f, value))
            && (forall value :: Gives(composed, p, f, value) ==>
                  exists rank: nat :: Wins(t, scope, node, rank, p, f, value))
  {
    hide Gives, At, Folded, Layers, Source, Below;
    var layers := Layers(t.builtin, t.themes, scope.themeId, scope.local, node);
    var composed := Composed(t.builtin, t.themes, scope.themeId, scope.local, node);
    AllBelow(t, scope, node);
    var ranks := LayersAre(t, scope, node, 5 + |node.refs|);
    assert RanksOk(t, scope, node, layers, ranks) by {
      forall rank: nat | rank >= 5 + |node.refs| ensures Source(t, scope, node, rank).None? {
        NoSourceAbove(t, scope, node, rank);
      }
    }
    LastSetterWins(layers, p, f);
    forall rank: nat, value | Wins(t, scope, node, rank, p, f, value) ensures Gives(composed, p, f, value) {
      WinnerIsLast(t, scope, node, layers, ranks, rank, p, f, value);
      GivesIs(composed, p, f, value);
    }
    forall value | Gives(composed, p, f, value) ensures exists rank: nat :: Wins(t, scope, node, rank, p, f, value) {
      GivesIs(composed, p, f, value);
      var i := LastLayer(layers, p, f, |layers|);
      LastIsWinner(t, scope, node, layers, ranks, i, p, f, value);
    }
  }

  lemma {:induction false} LastLayer(layers: seq<StyleSet>, p: Place, f: Field, n: nat) returns (i: nat)
    requires n <= |layers| && exists j :: 0 <= j < n && Sets(layers[j], p, f)
    ensures i < n && Sets(layers[i], p, f) && forall j :: i < j < n ==> !Sets(layers[j], p, f)
    decreases n
  {
    hide Sets;
    if Sets(layers[n - 1], p, f) {
      i := n - 1;
    } else {
      i := LastLayer(layers, p, f, n - 1);
    }
  }

  ghost predicate RanksOk(t: Tables, scope: Scope, node: Node, layers: seq<StyleSet>, ranks: seq<nat>) {
    && |ranks| == |layers|
    && (forall i :: 0 <= i < |ranks| ==> Source(t, scope, node, ranks[i]) == Some(layers[i]))
    && (forall i, j :: 0 <= i < j < |ranks| ==> ranks[i] < ranks[j])
    && (forall rank: nat :: Source(t, scope, node, rank).Some? ==> exists i :: 0 <= i < |ranks| && ranks[i] == rank)
  }

  lemma WinnerIsLast(t: Tables, scope: Scope, node: Node, layers: seq<StyleSet>, ranks: seq<nat>, rank: nat, p: Place,
                     f: Field, value: string)
    requires RanksOk(t, scope, node, layers, ranks) && Wins(t, scope, node, rank, p, f, value)
    ensures exists i :: 0 <= i < |layers| && Sets(layers[i], p, f) && At(layers[i], p)[f] == value
                        && forall j :: i < j < |layers| ==> !Sets(layers[j], p, f)
  {
    hide At, Gives, Source;
    var i :| 0 <= i < |ranks| && ranks[i] == rank;
    GivesIs(layers[i], p, f, value);
    forall j | i < j < |layers| ensures !Sets(layers[j], p, f) {
      var other := if f in At(layers[j], p) then At(layers[j], p)[f] else "";
      GivesIs(layers[j], p, f, other);
      assert !SourceGives(t, scope, node, ranks[j], p, f, other);
    }
  }

  lemma LastIsWinner(t: Tables, scope: Scope, node: Node, layers: seq<StyleSet>, ranks: seq<nat>, i: nat, p: Place,
                     f: Field, value: string)
    requires RanksOk(t, scope, node, layers, ranks) && i < |layers|
    requires Sets(layers[i], p, f) && At(layers[i], p)[f] == value
    requires forall j :: i < j < |layers| ==> !Sets(layers[j], p, f)
    ensures Wins(t, scope, node, ranks[i], p, f, value)
  {
    hide At, Gives, Source;
    GivesIs(layers[i], p, f, value);
    forall higher: nat, other | ranks[i] < higher ensures !SourceGives(t, scope, node, higher, p, f, other) {
      if Source(t, scope, node, higher).Some? {
        var j :| 0 <= j < |ranks| && ranks[j] == higher;
        GivesIs(layers[j], p, f, other);
        assert i < j;
      }
    }
  }

  lemma ReferenceIs(value: string, path: string)
    ensures ColorReference(value) == Path(path) <==> path != "" && value == "${color." + path + "}"
  {
    if value == "${color." + path + "}" {
      assert COLOR_PREFIX <= value && value[|value| - 1] == '}';
      assert value[|COLOR_PREFIX|..|value| - 1] == path;
    }
    if ColorReference(value) == Path(path) {
      assert value == value[..|COLOR_PREFIX|] + value[|COLOR_PREFIX|..|value| - 1] + value[|value| - 1..];
    }
  }

  lemma ResolvedDisplays(t: Tables, scope: Scope, f: Field, value: string)
    ensures Displays(t, scope, f, value, if f.Color? then ResolvedColor(t.themes, scope.themeId, value) else value)
  {
    hide ColorReference;
    var reference := ColorReference(value);
    if reference.Path? {
      ReferenceIs(value, reference.path);
    }
    forall path | Refers(t, scope, f, value, path) ensures reference == Path(path) {
      ReferenceIs(value, path);
    }
    if f.Color? && reference.Path? && scope.themeId in t.themes && reference.path in t.themes[scope.themeId].colors {
      assert Refers(t, scope, f, value, reference.path);
    }
  }

  lemma OneDisplayed(t: Tables, scope: Scope, s: StyleSet, p: Place, f: Field, value: string)
    ensures var shown := if f.Color? then ResolvedColor(t.themes, scope.themeId, value) else value;
            && Displays(t, scope, f, value, shown)
            && (Gives(s, p, f, value) ==> Gives(ResolvedSet(t.themes, scope.themeId, s), p, f, shown))
  {
    hide At, Gives, ResolvedSet, ResolvedColor, Displays;
    var shown := if f.Color? then ResolvedColor(t.themes, scope.themeId, value) else value;
    ResolvedDisplays(t, scope, f, value);
    ResolvedEverywhere(t.themes, scope.themeId, s, p);
    GivesIs(s, p, f, value);
    GivesIs(ResolvedSet(t.themes, scope.themeId, s), p, f, shown);
  }

  lemma OneGiven(t: Tables, scope: Scope, s: StyleSet, p: Place, f: Field, shown: string) returns (value: string)
    requires Gives(ResolvedSet(t.themes, scope.themeId, s), p, f, shown)
    ensures Gives(s, p, f, value)
    ensures shown == if f.Color? then ResolvedColor(t.themes, scope.themeId, value) else value
  {
    hide At, Gives, ResolvedSet, ResolvedColor;
    ResolvedEverywhere(t.themes, scope.themeId, s, p);
    GivesIs(ResolvedSet(t.themes, scope.themeId, s), p, f, shown);
    value := At(s, p)[f];
    GivesIs(s, p, f, value);
  }

  lemma LooksAreMeant(t: Tables, scope: Scope, node: Node)
    ensures LooksMean(t, scope, node, ResolveStyle(t, scope, node).looks)
  {
    hide Gives, Wins, Displays, Composed, ResolvedSet, ResolvedColor, PickedFont;
    var composed := Composed(t.builtin, t.themes, scope.themeId, scope.local, node);
    var looks := ResolveStyle(t, scope, node).looks;
    forall rank: nat, p, f, value | Wins(t, scope, node, rank, p, f, value)
      ensures exists shown :: Gives(looks, p, f, shown) && Displays(t, scope, f, value, shown)
    {
      ComposedMeans(t, scope, node, p, f);
      OneDisplayed(t, scope, composed, p, f, value);
    }
    forall p, f, shown | Gives(looks, p, f, shown)
      ensures exists rank: nat, value :: Wins(t, scope, node, rank, p, f, value) && Displays(t, scope, f, value, shown)
    {
      var value := OneGiven(t, scope, composed, p, f, shown);
      OneDisplayed(t, scope, composed, p, f, value);
      ComposedMeans(t, scope, node, p, f);
    }
  }

  lemma FontIsMeant(t: Tables, scope: Scope, looks: StyleSet)
    ensures FontMeans(t, scope, looks, PickedFont(t, scope.language, looks.style))
  {
    hide FontFor, IsFont;
    FontForIs(t.fonts, "default");
    if FontName in looks.style {
      FontForIs(t.fonts, looks.style[FontName]);
    }
    if scope.language in t.defaults && t.defaults[scope.language] != "" {
      var chosen := t.defaults[scope.language];
      FontForIs(t.fonts, chosen);
      FoundOrNothing(t.fonts, chosen);
    }
  }

  lemma FoundOrNothing(fonts: Fonts, id: string)
    requires id != ""
    ensures if id in fonts then FontFor(fonts, id).id == id else FontFor(fonts, id) == NO_FONT
  {
  }

  lemma StyleIsMeant(t: Tables, scope: Scope, node: Node)
    ensures StyleMeans(t, scope, node, ResolveStyle(t, scope, node))
  {
    hide LooksMean, FontMeans, PickedFont, Composed, ResolvedSet;
    LooksAreMeant(t, scope, node);
    FontIsMeant(t, scope, ResolveStyle(t, scope, node).looks);
  }

  /** A node that sets only its own base style. */
  function Bare(style: Style): Node {
    Node("screen", [], StyleSet(style, map[], map[]))
  }

  lemma BareField(t: Tables, scope: Scope, style: Style, f: Field)
    requires f in style && !f.Color?
    ensures f in ResolveStyle(t, scope, Bare(style)).looks.style
    ensures ResolveStyle(t, scope, Bare(style)).looks.style[f] == style[f]
  {
    var node := Bare(style);
    assert At(node.own, Base) == style;
    NodeWins(t.builtin, t.themes, scope.themeId, scope.local, node, Base, f);
    var composed := Composed(t.builtin, t.themes, scope.themeId, scope.local, node);
    assert At(composed, Base) == composed.style;
  }

  // ---- Which table changes a style can notice ----

  /** Resolving reads the document's theme, the font table and the default of the document's language, nothing else. */
  lemma ResolveReads(t: Tables, u: Tables, scope: Scope, node: Node)
    requires t.builtin == u.builtin && t.fonts == u.fonts
    requires SameTheme(t.themes, u.themes, scope.themeId)
    requires scope.language in t.defaults <==> scope.language in u.defaults
    requires scope.language in t.defaults ==> t.defaults[scope.language] == u.defaults[scope.language]
    ensures ResolveStyle(t, scope, node) == ResolveStyle(u, scope, node)
  {
    hide FontFor, Composed, RefLayers;
    ComposedReads(t, u, scope, node);
    ResolvedReads(t.themes, u.themes, scope.themeId, Composed(t.builtin, t.themes, scope.themeId, scope.local, node));
  }

  lemma ComposedReads(t: Tables, u: Tables, scope: Scope, node: Node)
    requires t.builtin == u.builtin
    requires SameTheme(t.themes, u.themes, scope.themeId)
    ensures Composed(t.builtin, t.themes, scope.themeId, scope.local, node)
         == Composed(u.builtin, u.themes, scope.themeId, scope.local, node)
  {
    hide Folded, RefLayers, Named;
    assert ThemeStyles(t.themes, scope.themeId) == ThemeStyles(u.themes, scope.themeId);
  }

  predicate SameTheme(a: map<string, Theme>, b: map<string, Theme>, id: string) {
    (id in a <==> id in b) && (id in a ==> a[id] == b[id])
  }

  lemma FieldsRead(a: map<string, Theme>, b: map<string, Theme>, id: string, style: Style)
    requires SameTheme(a, b, id)
    ensures ResolvedFields(a, id, style) == ResolvedFields(b, id, style)
  {
  }

  lemma StatesRead(a: map<string, Theme>, b: map<string, Theme>, id: string, states: map<string, Style>)
    requires SameTheme(a, b, id)
    ensures ResolvedStates(a, id, states) == ResolvedStates(b, id, states)
  {
    hide ResolvedFields;
    forall k | k in states ensures ResolvedFields(a, id, states[k]) == ResolvedFields(b, id, states[k]) {
      FieldsRead(a, b, id, states[k]);
    }
  }

  lemma ResolvedReads(a: map<string, Theme>, b: map<string, Theme>, id: string, s: StyleSet)
    requires SameTheme(a, b, id)
    ensures ResolvedSet(a, id, s) == ResolvedSet(b, id, s)
  {
    hide ResolvedFields, ResolvedStates, SameTheme;
    FieldsRead(a, b, id, s.style);
    StatesRead(a, b, id, s.states);
    forall k | k in s.parts
      ensures ResolvedFields(a, id, s.parts[k].style) == ResolvedFields(b, id, s.parts[k].style)
      ensures ResolvedStates(a, id, s.parts[k].states) == ResolvedStates(b, id, s.parts[k].states)
    {
      FieldsRead(a, b, id, s.parts[k].style);
      StatesRead(a, b, id, s.parts[k].states);
    }
  }

  function WithTheme(t: Tables, id: string, theme: Theme): Tables {
    t.(themes := t.themes[id := theme])
  }

  /** A theme under this id can be loaded unnoticed, whatever it holds, exactly when the document uses another theme. */
  lemma ThemeLoadNoticed(t: Tables, scope: Scope, id: string)
    ensures (forall theme, node :: ResolveStyle(WithTheme(t, id, theme), scope, node) == ResolveStyle(t, scope, node))
            <==> scope.themeId != id
  {
    hide ResolveStyle;
    if scope.themeId != id {
      forall theme, node ensures ResolveStyle(WithTheme(t, id, theme), scope, node) == ResolveStyle(t, scope, node) {
        ResolveReads(WithTheme(t, id, theme), t, scope, node);
      }
    } else {
      var node := Node("", [], NO_STYLE);
      var one, two := Theme(map["all" := StyleSet(map[Plain(0) := "1"], map[], map[])], map[]),
                      Theme(map["all" := StyleSet(map[Plain(0) := "2"], map[], map[])], map[]);
      ThemeShows(t, scope, one, "1");
      ThemeShows(t, scope, two, "2");
      assert ResolveStyle(WithTheme(t, id, one), scope, node) != ResolveStyle(t, scope, node)
          || ResolveStyle(WithTheme(t, id, two), scope, node) != ResolveStyle(t, scope, node);
    }
  }

  lemma ThemeShows(t: Tables, scope: Scope, theme: Theme, value: string)
    requires theme == Theme(map["all" := StyleSet(map[Plain(0) := value], map[], map[])], map[])
    ensures var style := ResolveStyle(WithTheme(t, scope.themeId, theme), scope, Node("", [], NO_STYLE)).looks.style;
            Plain(0) in style && style[Plain(0)] == value
  {
    hide Merged, Folded, PickedFont;
    var u, node := WithTheme(t, scope.themeId, theme), Node("", [], NO_STYLE);
    var layers := Layers(u.builtin, u.themes, scope.themeId, scope.local, node);
    var base := Named(u.builtin, "all") + Named(u.builtin, "");
    assert layers == base + [theme.styles["all"], NO_STYLE];
    assert At(NO_STYLE, Base) == map[] && At(theme.styles["all"], Base) == map[Plain(0) := value];
    assert layers[|base|] == theme.styles["all"] && Sets(layers[|base|], Base, Plain(0));
    assert forall j :: |base| < j < |layers| ==> layers[j] == NO_STYLE && !Sets(layers[j], Base, Plain(0));
    LastSetterWins(layers, Base, Plain(0));
    assert At(Folded(layers), Base) == Folded(layers).style;
  }

  function WithDefault(t: Tables, language: string, font: string): Tables {
    t.(defaults := t.defaults[language := font])
  }

  /** A default font can be set unnoticed exactly when it is for another language or is the font already chosen. */
  lemma DefaultFontNoticed(t: Tables, scope: Scope, language: string, font: string)
    requires font in t.fonts && font != ""
    ensures (forall node :: ResolveStyle(WithDefault(t, language, font), scope, node) == ResolveStyle(t, scope, node))
            <==> scope.language != language || DefaultFont(t, language) == FontFor(t.fonts, font)
  {
    hide FontFor, Composed, ResolvedSet;
    var u := WithDefault(t, language, font);
    if scope.language != language {
      forall node ensures ResolveStyle(u, scope, node) == ResolveStyle(t, scope, node) {
        ResolveReads(u, t, scope, node);
      }
    } else {
      assert FontFor(t.fonts, font).id == font by { FontForFound(t.fonts, font); }
      assert DefaultFont(u, language) == FontFor(t.fonts, font);
      var node := Bare(map[FontName := ""]);
      BareField(u, scope, map[FontName := ""], FontName);
      BareField(t, scope, map[FontName := ""], FontName);
      assert ResolveStyle(u, scope, node).font == DefaultFont(u, language);
      assert ResolveStyle(t, scope, node).font == DefaultFont(t, language);
    }
  }

  lemma FontForFound(fonts: Fonts, id: string)
    requires id in fonts && id != ""
    ensures FontFor(fonts, id).id == id && FontFor(fonts, id).src == fonts[id].src
    ensures FontFor(fonts, id).natives == fonts[id].natives
  {
  }

  /** Every font a node can ask for by name resolves the same. */
  ghost predicate SameFonts(a: Fonts, b: Fonts) {
    forall id :: id != "" ==> FontFor(a, id) == FontFor(b, id)
  }

  /** The font table can change unnoticed exactly when every font a node can name resolves as before. */
  lemma FontChangeNoticed(t: Tables, u: Tables, scope: Scope)
    requires u == t.(fonts := u.fonts)
    ensures (forall node :: ResolveStyle(t, scope, node) == ResolveStyle(u, scope, node)) <==>
      SameFonts(t.fonts, u.fonts)
  {
    hide FontFor, Composed, ResolvedSet;
    if forall node :: ResolveStyle(t, scope, node) == ResolveStyle(u, scope, node) {
      forall id | id != "" ensures FontFor(t.fonts, id) == FontFor(u.fonts, id) {
        BareField(t, scope, map[FontName := id], FontName);
        BareField(u, scope, map[FontName := id], FontName);
        assert ResolveStyle(t, scope, Bare(map[FontName := id])) == ResolveStyle(u, scope, Bare(map[FontName := id]));
      }
    }
    if SameFonts(t.fonts, u.fonts) {
      forall node ensures ResolveStyle(t, scope, node) == ResolveStyle(u, scope, node) {
      }
    }
  }

  // ---- Revisions ----

  const WRAP: nat := 0x1_0000_0000

  /** The next style revision; revisions whose low 32 bits are zero are skipped, zero marks a record as unapplied. */
  function NextRevision(revision: nat): (r: nat)
    ensures revision < r <= revision + 2
    ensures revision % WRAP != 0 ==> r % WRAP != 0
  {
    if (revision + 1) % WRAP == 0 then revision + 2 else revision + 1
  }

  /** The 32-bit tag each live node record keeps of the revision its style was applied at. */
  class AppliedTags {
    var revision: nat
    var tags: map<nat, nat>
    ghost var appliedAt: map<nat, nat>

    ghost predicate Valid()
      reads this
    {
      && revision % WRAP != 0
      && appliedAt.Keys == tags.Keys
      && forall r :: r in tags && tags[r] != 0 ==>
           tags[r] == appliedAt[r] % WRAP && appliedAt[r] / WRAP == revision / WRAP && appliedAt[r] <= revision
    }

    constructor ()
      ensures Valid() && tags == map[]
    {
      revision, tags, appliedAt := 1, map[], map[];
    }

    method AdvanceStyleRevision()
      requires Valid()
      modifies this`revision, this`tags
      ensures Valid() && revision == NextRevision(old(revision)) && tags.Keys == old(tags).Keys
      ensures (old(revision) + 1) % WRAP != 0 ==> tags == old(tags)
    {
      SameEpochOrWrap(revision);
      revision := revision + 1;
      if revision % WRAP != 0 {
        return;
      }
      tags := map r | r in tags :: 0;
      revision := revision + 1;
    }

    /** A marked record is skipped exactly when its style really was applied at the current revision. */
    method ReapplyStyleRecord(record: nat) returns (applied: bool)
      requires Valid() && record in tags
      modifies this`tags, this`appliedAt
      ensures Valid() && appliedAt == old(appliedAt)[record := revision]
      ensures tags == old(tags)[record := revision % WRAP]
      ensures applied <==> old(tags)[record] == 0 || old(appliedAt)[record] != revision
    {
      if tags[record] == revision % WRAP {
        SameTag(appliedAt[record], revision);
        assert tags == tags[record := revision % WRAP] && appliedAt == appliedAt[record := revision];
        return false;
      }
      tags := tags[record := revision % WRAP];
      appliedAt := appliedAt[record := revision];
      return true;
    }
  }

  lemma SameEpochOrWrap(revision: nat)
    ensures (revision + 1) % WRAP != 0 ==> (revision + 1) / WRAP == revision / WRAP
    ensures revision % WRAP != 0 && (revision + 1) % WRAP == 0 ==> (revision + 2) % WRAP != 0
  {
  }

  lemma SameTag(a: nat, b: nat)
    requires a / WRAP == b / WRAP
    ensures a % WRAP == b % WRAP ==> a == b
  {
  }

  // ---- The cache ----

  type DocumentId = nat
  /** A canonical definition's address. */
  type Definition = nat
  /** A shared resolved style. */
  type Ref = nat

  /** A node as written in the document: what the cascade reads of it, and the paths of its bindings. */
  datatype NodeDefinition = NodeDefinition(look: Node, bindings: seq<string>)

  predicate IsStylePath(path: string) {
    "style." <= path || "stateStyles." <= path || "partStyles." <= path
  }

  predicate HasStyleBinding(bindings: seq<string>) {
    exists i :: 0 <= i < |bindings| && IsStylePath(bindings[i])
  }

  /** The node built for an instance: bound values are written into it, but only style paths reach its look. */
  function InstanceLook(look: Node, bindings: seq<string>, write: (Node, string) -> Node): Node
    decreases |bindings|
  {
    if bindings == [] then look
    else InstanceLook(if IsStylePath(bindings[0]) then write(look, bindings[0]) else look, bindings[1..], write)
  }

  /** The style paths among the bindings are written into the look one after the other, nothing else is. */
  ghost predicate Written(look: Node, bindings: seq<string>, write: (Node, string) -> Node, after: Node) {
    exists looks: seq<Node> ::
      && |looks| == |bindings| + 1 && looks[0] == look && looks[|bindings|] == after
      && forall i :: 0 <= i < |bindings| ==>
           looks[i + 1] == if "style." <= bindings[i] || "stateStyles." <= bindings[i] || "partStyles." <= bindings[i]
                           then write(looks[i], bindings[i]) else looks[i]
  }

  lemma LookIsWritten(look: Node, bindings: seq<string>, write: (Node, string) -> Node)
    ensures Written(look, bindings, write, InstanceLook(look, bindings, write))
  {
    var looks := LooksOnTheWay(look, bindings, write);
  }

  lemma {:induction false} LooksOnTheWay(look: Node, bindings: seq<string>, write: (Node, string) -> Node)
    returns (looks: seq<Node>)
    ensures |looks| == |bindings| + 1 && looks[0] == look && looks[|bindings|] == InstanceLook(look, bindings, write)
    ensures forall i :: 0 <= i < |bindings| ==>
              looks[i + 1]
              == if "style." <= bindings[i] || "stateStyles." <= bindings[i] || "partStyles." <= bindings[i]
                 then write(looks[i], bindings[i]) else looks[i]
    decreases |bindings|
  {
    looks := [look];
    if bindings != [] {
      var next := if IsStylePath(bindings[0]) then write(look, bindings[0]) else look;
      var rest := LooksOnTheWay(next, bindings[1..], write);
      looks := [look] + rest;
      forall i | 0 < i < |bindings| ensures looks[i] == rest[i - 1] && bindings[i] == bindings[1..][i - 1] {
      }
    }
  }

  lemma {:induction false} SameLook(look: Node, bindings: seq<string>, write: (Node, string) -> Node)
    requires !HasStyleBinding(bindings)
    ensures InstanceLook(look, bindings, write) == look
    decreases |bindings|
  {
    if bindings != [] {
      assert !IsStylePath(bindings[0]);
      assert forall i :: 0 <= i < |bindings[1..]| ==> bindings[1..][i] == bindings[i + 1];
      SameLook(look, bindings[1..], write);
    }
  }

  /** The part of a loaded document the cache works on; `interned` holds weak references. */
  datatype Tree = Tree(scope: Scope, definitions: map<Definition, NodeDefinition>, cached: map<Definition, Ref>,
                       interned: seq<Ref>)

  /** First live interned style equal to `style`. */
  function Match(interned: seq<Ref>, live: map<Ref, Resolved>, style: Resolved): (r: Option<Ref>)
    ensures r.Some? ==> r.value in interned && r.value in live && live[r.value] == style
    ensures r.None? ==> forall x :: x in interned && x in live ==> live[x] != style
  {
    if interned == [] then None
    else if interned[0] in live && live[interned[0]] == style then Some(interned[0])
    else Match(interned[1..], live, style)
  }

  /** The table after a lookup: dead entries before the match are gone. */
  function Swept(interned: seq<Ref>, live: map<Ref, Resolved>, style: Resolved): (r: seq<Ref>)
    ensures forall x :: x in r ==> x in interned
    ensures forall x :: x in interned && x in live ==> x in r
  {
    if interned == [] then []
    else if interned[0] !in live then Swept(interned[1..], live, style)
    else if live[interned[0]] == style then interned
    else [interned[0]] + Swept(interned[1..], live, style)
  }

  predicate DistinctRefs(interned: seq<Ref>) {
    forall i, j :: 0 <= i < j < |interned| ==> interned[i] != interned[j]
  }

  /** Live interned styles are pairwise different. */
  predicate Interned(interned: seq<Ref>, live: map<Ref, Resolved>) {
    && DistinctRefs(interned)
    && forall x, y :: x in interned && y in interned && x in live && y in live && live[x] == live[y] ==> x == y
  }

  lemma {:induction false} SweptDistinct(interned: seq<Ref>, live: map<Ref, Resolved>, style: Resolved)
    requires DistinctRefs(interned)
    ensures DistinctRefs(Swept(interned, live, style))
    decreases |interned|
  {
    if interned != [] {
      SweptDistinct(interned[1..], live, style);
      assert interned[0] !in interned[1..];
    }
  }

  predicate TreeOk(tree: Tree, live: map<Ref, Resolved>, nextRef: Ref) {
    && Interned(tree.interned, live)
    && (forall x :: x in tree.interned ==> x < nextRef)
    && (forall d :: d in tree.cached ==> tree.cached[d] in live)
  }

  /** Every cached style is what resolving its definition gives now. */
  predicate Fresh(tree: Tree, tables: Tables, live: map<Ref, Resolved>) {
    forall d :: d in tree.cached ==>
      && d in tree.definitions && tree.cached[d] in live
      && live[tree.cached[d]] == ResolveStyle(tables, tree.scope, tree.definitions[d].look)
  }

  lemma InternHit(tree: Tree, live: map<Ref, Resolved>, nextRef: Ref, style: Resolved)
    requires TreeOk(tree, live, nextRef) && Match(tree.interned, live, style).Some?
    ensures TreeOk(tree.(interned := Swept(tree.interned, live, style)), live, nextRef)
  {
    SweptDistinct(tree.interned, live, style);
  }

  lemma InternMiss(tree: Tree, live: map<Ref, Resolved>, nextRef: Ref, style: Resolved)
    requires TreeOk(tree, live, nextRef) && Match(tree.interned, live, style).None?
    requires forall x :: x in live ==> x < nextRef
    ensures TreeOk(tree.(interned := Swept(tree.interned, live, style) + [nextRef]), live[nextRef := style],
        nextRef + 1)
  {
    SweptDistinct(tree.interned, live, style);
    hide ResolveStyle;
    var after, more := Swept(tree.interned, live, style) + [nextRef], live[nextRef := style];
    assert nextRef !in tree.interned;
    forall x, y | x in after && y in after && x in more && y in more && more[x] == more[y] ensures x == y {
      assert x == nextRef || x in tree.interned;
      assert y == nextRef || y in tree.interned;
    }
  }

  /** New live styles leave every tree as it was. */
  lemma TreeKept(tree: Tree, tables: Tables, live: map<Ref, Resolved>, more: map<Ref, Resolved>, n: Ref, m: Ref)
    requires TreeOk(tree, live, n) && n <= m && live.Keys <= more.Keys && forall x :: x in live ==> more[x] == live[x]
    requires forall x :: x in more && x !in live ==> n <= x
    ensures TreeOk(tree, more, m)
    ensures Fresh(tree, tables, live) ==> Fresh(tree, tables, more)
  {
    hide ResolveStyle;
  }

  /** Tables changed without a new revision: cached styles of this document cannot have noticed. */
  predicate Unnoticed(t: Tables, u: Tables, scope: Scope) {
    && t.builtin == u.builtin && t.fonts == u.fonts
    && SameTheme(t.themes, u.themes, scope.themeId)
    && (scope.language in t.defaults <==> scope.language in u.defaults)
    && (scope.language in t.defaults ==> t.defaults[scope.language] == u.defaults[scope.language])
  }

  lemma StaysFresh(tree: Tree, t: Tables, u: Tables, live: map<Ref, Resolved>)
    requires Fresh(tree, t, live) && Unnoticed(t, u, tree.scope)
    ensures Fresh(tree, u, live)
  {
    hide ResolveStyle, SameTheme;
    forall d | d in tree.cached
      ensures ResolveStyle(t, tree.scope, tree.definitions[d].look)
              == ResolveStyle(u, tree.scope, tree.definitions[d].look)
    {
      ResolveReads(t, u, tree.scope, tree.definitions[d].look);
    }
  }

  lemma SameFontsStayFresh(tree: Tree, t: Tables, u: Tables, live: map<Ref, Resolved>)
    requires Fresh(tree, t, live) && u == t.(fonts := u.fonts) && SameFonts(t.fonts, u.fonts)
    ensures Fresh(tree, u, live)
  {
    hide ResolveStyle, SameFonts;
    FontChangeNoticed(t, u, tree.scope);
    forall d | d in tree.cached
      ensures ResolveStyle(t, tree.scope, tree.definitions[d].look)
              == ResolveStyle(u, tree.scope, tree.definitions[d].look)
    {
    }
  }

  lemma AllKept(trees: map<DocumentId, Tree>, tables: Tables, live: map<Ref, Resolved>, more: map<Ref, Resolved>,
                n: Ref)
    requires (forall x :: x in live ==> x < n) && more.Keys == live.Keys + {n}
    requires forall x :: x in live ==> more[x] == live[x]
    requires forall d :: d in trees ==> TreeOk(trees[d], live, n)
    ensures forall d :: d in trees ==> TreeOk(trees[d], more, n + 1)
    ensures forall d :: d in trees && Fresh(trees[d], tables, live) ==> Fresh(trees[d], tables, more)
  {
    hide ResolveStyle, TreeOk, Fresh;
    forall d | d in trees
      ensures TreeOk(trees[d], more, n + 1)
      ensures Fresh(trees[d], tables, live) ==> Fresh(trees[d], tables, more)
    {
      TreeKept(trees[d], tables, live, more, n, n + 1);
    }
  }

  /** The walk over the interning table: stops at the first live equal style, drops dead entries on the way. */
  method SweepInterned(interned: seq<Ref>, live: map<Ref, Resolved>, style: Resolved)
    returns (kept: seq<Ref>, found: Option<Ref>)
    ensures kept == Swept(interned, live, style) && found == Match(interned, live, style)
  {
    hide Match, Swept;
    kept := [];
    assert interned[0..] == interned && [] + Swept(interned, live, style) == Swept(interned, live, style);
    for i := 0 to |interned|
      invariant kept + Swept(interned[i..], live, style) == Swept(interned, live, style)
      invariant Match(interned[i..], live, style) == Match(interned, live, style)
    {
      SweepStep(interned, live, style, i);
      assert kept + ([interned[i]] + Swept(interned[i + 1..], live, style))
          == kept + [interned[i]] + Swept(interned[i + 1..], live, style);
      if interned[i] in live {
        if live[interned[i]] == style {
          return kept + interned[i..], Some(interned[i]);
        }
        kept := kept + [interned[i]];
      }
    }
    SweepEnd(live, style);
    assert interned[|interned|..] == [] && kept + [] == kept;
    return kept, None;
  }

  function Emptied(trees: map<DocumentId, Tree>): map<DocumentId, Tree> {
    map d | d in trees :: trees[d].(cached := map[], interned := [])
  }

  class StyleRuntime {
    var tables: Tables
    var currentTheme: string
    var currentLanguage: string
    var revision: nat
    var cacheRevision: nat
    var trees: map<DocumentId, Tree>
    var live: map<Ref, Resolved>
    var nextRef: Ref

    ghost predicate Valid()
      reads this
    {
      && cacheRevision <= revision
      && (forall x :: x in live ==> x < nextRef)
      && (forall d :: d in trees ==> TreeOk(trees[d], live, nextRef))
    }

    /** While the caches carry the current revision, everything in them is what resolving would give. */
    ghost predicate Coherent()
      reads this
    {
      cacheRevision == revision ==> forall d :: d in trees ==> Fresh(trees[d], tables, live)
    }

    constructor (tables: Tables)
      ensures Valid() && Coherent() && trees == map[] && this.tables == tables
      ensures currentTheme == "default" && currentLanguage == "en"
    {
      this.tables, currentTheme, currentLanguage := tables, "default", "en";
      revision, cacheRevision, trees, live, nextRef := 1, 0, map[], map[], 0;
    }

    /** Shares an equal live style of the document if there is one; dead entries met on the way are dropped. */
    method InternResolvedStyle(document: DocumentId, style: Resolved) returns (ref: Ref)
      requires Valid() && document in trees
      modifies this`trees, this`live, this`nextRef
      ensures Valid() && (old(Coherent()) ==> Coherent())
      ensures ref in live && live[ref] == style
      ensures var tree, found := old(trees)[document], Match(old(trees)[document].interned, old(live), style);
              var kept := Swept(tree.interned, old(live), style);
              if found.Some?
              then ref == found.value && live == old(live)
                   && trees == old(trees)[document := tree.(interned := kept)]
              else ref == old(nextRef) && live == old(live)[ref := style]
                   && trees == old(trees)[document := tree.(interned := kept + [ref])]
    {
      hide ResolveStyle, TreeOk, Fresh, Match, Swept;
      ghost var tree := trees[document];
      var kept, found := SweepInterned(trees[document].interned, live, style);
      if found.Some? {
        InternHit(tree, live, nextRef, style);
        FreshMoved(tree, tables, live, kept);
        trees := trees[document := trees[document].(interned := kept)];
        return found.value;
      }
      ref := nextRef;
      InternMiss(tree, live, nextRef, style);
      AllKept(trees, tables, live, live[ref := style], nextRef);
      FreshMoved(tree, tables, live[ref := style], kept + [ref]);
      live := live[ref := style];
      trees := trees[document := trees[document].(interned := kept + [ref])];
      nextRef := nextRef + 1;
    }

    /** The caches of every document are thrown away when the revision has moved on. */
    method RefreshCaches()
      requires Valid()
      modifies this`trees, this`cacheRevision
      ensures Valid() && cacheRevision == revision && (old(Coherent()) ==> Coherent())
      ensures trees == if old(cacheRevision) == revision then old(trees) else Emptied(old(trees))
    {
      hide ResolveStyle;
      if cacheRevision != revision {
        trees := map d | d in trees :: trees[d].(cached := map[], interned := []);
        cacheRevision := revision;
      }
    }

    /**
     * While the caches are coherent, the shared style handed out is what resolving the node afresh gives. Under an
     * unchanged revision a cached definition gets its cached style, whatever has happened to the tables.
     */
    method ResolveStyleShared(document: DocumentId, node: Node, definition: Option<Definition>) returns (ref: Ref)
      requires Valid() && document in trees
      requires definition.Some? ==>
                 definition.value in trees[document].definitions &&
                     trees[document].definitions[definition.value].look == node
      modifies this`trees, this`cacheRevision, this`live, this`nextRef
      ensures Valid() && cacheRevision == revision && (old(Coherent()) ==> Coherent())
      ensures trees.Keys == old(trees).Keys && trees[document].scope == old(trees)[document].scope
      ensures trees[document].definitions == old(trees)[document].definitions
      ensures ref in live
      ensures definition.Some? ==>
        definition.value in trees[document].cached && trees[document].cached[definition.value] == ref
      ensures old(Coherent()) ==>
        && live[ref] == ResolveStyle(tables, trees[document].scope, node)
        && StyleMeans(tables, trees[document].scope, node, live[ref])
      ensures old(cacheRevision) == revision && definition.Some? && definition.value in old(trees)[document].cached ==>
        ref == old(trees)[document].cached[definition.value] && live == old(live)
    {
      hide ResolveStyle, TreeOk, Swept, Match, StyleMeans;
      StyleIsMeant(tables, trees[document].scope, node);
      RefreshCaches();
      if definition.Some? && definition.value in trees[document].cached {
        CachedIsLive(trees[document], live, nextRef, definition.value);
        if Coherent() {
          FreshGives(trees[document], tables, live, definition.value);
        }
        return trees[document].cached[definition.value];
      }
      var style := ResolveStyle(tables, trees[document].scope, node);
      ref := InternResolvedStyle(document, style);
      if definition.Some? {
        ghost var tree := trees[document];
        CachedOneMore(tree, tables, live, nextRef, definition.value, ref);
        hide Fresh;
        trees := trees[document := trees[document].(cached := trees[document].cached[definition.value := ref])];
      }
    }

    /** Building a node: the definition's cache entry is used only when no binding can change the look. */
    method StyleOfNewNode(document: DocumentId, definition: Definition, write: (Node, string) -> Node)
      returns (ref: Ref)
      requires Valid() && Coherent() && document in trees && definition in trees[document].definitions
      modifies this`trees, this`cacheRevision, this`live, this`nextRef
      ensures Valid() && Coherent()
      ensures trees.Keys == old(trees).Keys && trees[document].scope == old(trees)[document].scope
      ensures var d := old(trees)[document].definitions[definition];
              && ref in live
              && live[ref] == ResolveStyle(tables, trees[document].scope, InstanceLook(d.look, d.bindings, write))
              && exists look :: Written(d.look, d.bindings, write, look)
                                && StyleMeans(tables, trees[document].scope, look, live[ref])
      ensures !HasStyleBinding(old(trees)[document].definitions[definition].bindings) ==>
        definition in trees[document].cached && trees[document].cached[definition] == ref
    {
      hide ResolveStyle, TreeOk, Fresh, InstanceLook, Written, StyleMeans;
      var d := trees[document].definitions[definition];
      LookIsWritten(d.look, d.bindings, write);
      var node := InstanceLook(d.look, d.bindings, write);
      if HasStyleBinding(d.bindings) {
        ref := ResolveStyleShared(document, node, None);
      } else {
        SameLook(d.look, d.bindings, write);
        ref := ResolveStyleShared(document, node, Some(definition));
      }
    }

    /** The last owner of a shared style lets go of it. */
    method Expire(ref: Ref)
      requires Valid() && Coherent() && forall d, x :: d in trees && x in trees[d].cached ==> trees[d].cached[x] != ref
      modifies this`live
      ensures Valid() && Coherent() && live == old(live) - {ref}
    {
      hide ResolveStyle;
      live := live - {ref};
    }

    method Load(document: DocumentId, scope: Scope, definitions: map<Definition, NodeDefinition>)
      requires Valid() && Coherent()
      modifies this`trees
      ensures Valid() && Coherent() && trees == old(trees)[document := Tree(scope, definitions, map[], [])]
    {
      hide ResolveStyle;
      trees := trees[document := Tree(scope, definitions, map[], [])];
    }

    method Update(document: DocumentId, scope: Scope, definitions: map<Definition, NodeDefinition>)
      requires Valid() && document in trees
      modifies this`trees, this`revision
      ensures Valid() && Coherent() && revision == NextRevision(old(revision))
      ensures trees == old(trees)[document := Tree(scope, definitions, map[], [])]
    {
      hide ResolveStyle, NextRevision;
      revision := NextRevision(revision);
      trees := trees[document := Tree(scope, definitions, map[], [])];
    }

    /** Nothing stale unless a loaded document uses the theme and it is not the current one. */
    method LoadTheme(id: string, theme: Theme) returns (ok: bool)
      requires Valid()
      modifies this`tables, this`revision
      ensures Valid() && ok == (id != "")
      ensures tables == if ok then WithTheme(old(tables), id, theme) else old(tables)
      ensures revision == if ok && id == currentTheme then NextRevision(old(revision)) else old(revision)
      ensures old(Coherent()) && (id == currentTheme || forall d :: d in trees ==> trees[d].scope.themeId != id) ==>
        Coherent()
    {
      hide ResolveStyle, TreeOk, NextRevision, Fresh;
      if id == "" {
        return false;
      }
      ghost var before := tables;
      tables := WithTheme(tables, id, theme);
      if id == currentTheme {
        revision := NextRevision(revision);
      } else {
        forall d | d in trees && trees[d].scope.themeId != id && Fresh(trees[d], before, live)
          ensures Fresh(trees[d], tables, live)
        {
          StaysFresh(trees[d], before, tables, live);
        }
      }
      ok := true;
    }

    /** Nothing stale unless a loaded document uses the language and it is not the current one. */
    method SetDefaultFontForLanguage(language: string, font: string, supports: (string, string) -> bool)
      returns (ok: bool)
      requires Valid()
      modifies this`tables, this`revision
      ensures Valid()
      ensures ok == (language != "" && font != "" && font in old(tables).fonts && supports(font, language))
      ensures tables == if ok then WithDefault(old(tables), language, font) else old(tables)
      ensures revision == if ok && language == currentLanguage then NextRevision(old(revision)) else old(revision)
      ensures old(Coherent())
              && (language == currentLanguage || forall d :: d in trees ==> trees[d].scope.language != language)
              ==> Coherent()
    {
      hide ResolveStyle, TreeOk, NextRevision, Fresh;
      if language == "" || font == "" || font !in tables.fonts || !supports(font, language) {
        return false;
      }
      ghost var before := tables;
      tables := WithDefault(tables, language, font);
      if language == currentLanguage {
        revision := NextRevision(revision);
      } else {
        forall d | d in trees && trees[d].scope.language != language && Fresh(trees[d], before, live)
          ensures Fresh(trees[d], tables, live)
        {
          StaysFresh(trees[d], before, tables, live);
        }
      }
      ok := true;
    }

    /** Fonts the backend lists, less the unregistered ones, overwrite registered ones, and the revision stays. */
    method RefreshGlobalFontsFromBackend(listed: Fonts)
      requires Valid()
      modifies this`tables
      ensures Valid() && tables == old(tables).(fonts := old(tables).fonts + listed)
      ensures old(Coherent()) && SameFonts(old(tables).fonts, tables.fonts) ==> Coherent()
    {
      hide ResolveStyle, TreeOk, Fresh, SameFonts;
      ghost var before := tables;
      tables := tables.(fonts := tables.fonts + listed);
      if SameFonts(before.fonts, tables.fonts) {
        forall d | d in trees && Fresh(trees[d], before, live) ensures Fresh(trees[d], tables, live) {
          SameFontsStayFresh(trees[d], before, tables, live);
        }
      }
    }

    method RegisterFont(id: string, font: Font, listed: Fonts)
      requires Valid() && id != ""
      modifies this`tables, this`revision
      ensures Valid() && Coherent() && tables == old(tables).(fonts := old(tables).fonts[id := font] + listed)
      ensures revision == NextRevision(old(revision))
    {
      hide ResolveStyle, TreeOk, Fresh, NextRevision;
      tables := tables.(fonts := tables.fonts[id := font]);
      RefreshGlobalFontsFromBackend(listed);
      revision := NextRevision(revision);
    }

    method UnregisterFont(id: string) returns (ok: bool)
      requires Valid()
      modifies this`tables, this`revision
      ensures Valid() && ok == (id in old(tables).fonts)
      ensures old(Coherent()) ==> Coherent()
      ensures tables == if !ok then old(tables)
                        else old(tables).(fonts := old(tables).fonts - {id},
                            defaults := WithoutDefault(old(tables).defaults, id))
      ensures ok ==> forall l :: l in tables.defaults <==> l in old(tables).defaults && old(tables).defaults[l] != id
    {
      hide ResolveStyle, TreeOk, Fresh, NextRevision;
      if id !in tables.fonts {
        return false;
      }
      tables := tables.(fonts := tables.fonts - {id}, defaults := WithoutDefault(tables.defaults, id));
      revision := NextRevision(revision);
      ok := true;
    }
  }

  // ---- How a cached style goes stale ----

  /** The three ways to change a table under an unchanged revision. */
  datatype Change = ThemeLoaded(theme: Theme) | DefaultSet(font: string) | FontsListed(fonts: Fonts)

  /** The change concerns this document but not the current theme or language, so no revision is advanced. */
  predicate Silent(runtime: StyleRuntime, scope: Scope, change: Change)
    reads runtime
  {
    match change
    case ThemeLoaded(_) => scope.themeId != "" && scope.themeId != runtime.currentTheme
    case DefaultSet(font) => scope.language != "" && scope.language != runtime.currentLanguage
                             && font != "" && font in runtime.tables.fonts
    case FontsListed(_) => true
  }

  /**
   * Resolve, change a table silently, resolve again: the second answer is the first one, so it is right exactly when
   * the change does not concern the node.
   */
  method AskTwice(runtime: StyleRuntime, document: DocumentId, d: Definition, change: Change)
    returns (first: Ref, second: Ref)
    requires runtime.Valid() && runtime.Coherent() && document in runtime.trees &&
             d in runtime.trees[document].definitions
    requires Silent(runtime, runtime.trees[document].scope, change)
    modifies runtime
    ensures runtime.Valid() && second == first && second in runtime.live
    ensures var scope, look := old(runtime.trees)[document].scope, old(runtime.trees)[document].definitions[d].look;
            && runtime.tables == (match change
                                  case ThemeLoaded(theme) => WithTheme(old(runtime.tables), scope.themeId, theme)
                                  case DefaultSet(font) => WithDefault(old(runtime.tables), scope.language, font)
                                  case FontsListed(fonts) => old(runtime.tables).(fonts := old(runtime.tables).fonts
                                      + fonts))
            && (runtime.live[second] == ResolveStyle(runtime.tables, scope, look) <==>
                ResolveStyle(old(runtime.tables), scope, look) == ResolveStyle(runtime.tables, scope, look))
  {
    hide ResolveStyle, TreeOk, Fresh, SameFonts, NextRevision;
    var scope, look := runtime.trees[document].scope, runtime.trees[document].definitions[d].look;
    first := runtime.ResolveStyleShared(document, look, Some(d));
    var done := true;
    match change {
      case ThemeLoaded(theme) => done := runtime.LoadTheme(scope.themeId, theme);
      case DefaultSet(font) => done := runtime.SetDefaultFontForLanguage(scope.language, font, (f, l) => true);
      case FontsListed(fonts) => runtime.RefreshGlobalFontsFromBackend(fonts);
    }
    second := runtime.ResolveStyleShared(document, look, Some(d));
  }

  /** From a fresh runtime: a theme in use but not current is loaded again, and the old look is still handed out. */
  method StaleTheme(tables: Tables) returns (runtime: StyleRuntime, ref: Ref)
    ensures fresh(runtime) && runtime.Valid() && ref in runtime.live
    ensures runtime.live[ref] != ResolveStyle(runtime.tables, Scope(map[], "night", "en"), Node("", [], NO_STYLE))
  {
    hide ResolveStyle, TreeOk, Fresh, NextRevision;
    var scope, node := Scope(map[], "night", "en"), Node("", [], NO_STYLE);
    var one, two := Theme(map["all" := StyleSet(map[Plain(0) := "1"], map[], map[])], map[]),
                    Theme(map["all" := StyleSet(map[Plain(0) := "2"], map[], map[])], map[]);
    runtime := new StyleRuntime(tables);
    var loaded := runtime.LoadTheme("night", one);
    runtime.Load(0, scope, map[0 := NodeDefinition(node, [])]);
    ThemeShows(tables, scope, one, "1");
    ghost var before := runtime.tables;
    ThemeShows(before, scope, two, "2");
    var first;
    first, ref := AskTwice(runtime, 0, 0, ThemeLoaded(two));
  }

  function WithoutDefault(defaults: map<string, string>, font: string): map<string, string> {
    map language | language in defaults && defaults[language] != font :: defaults[language]
  }

  lemma SweepStep(interned: seq<Ref>, live: map<Ref, Resolved>, style: Resolved, i: nat)
    requires i < |interned|
    ensures var r, rest := interned[i], Swept(interned[i + 1..], live, style);
            Swept(interned[i..], live, style)
            == if r !in live then rest else if live[r] == style then interned[i..] else [r] + rest
    ensures Match(interned[i..], live, style)
         == if interned[i] in live && live[interned[i]] == style then Some(interned[i])
            else Match(interned[i + 1..], live, style)
  {
    assert interned[i..][1..] == interned[i + 1..];
  }

  lemma SweepEnd(live: map<Ref, Resolved>, style: Resolved)
    ensures Swept([], live, style) == [] && Match([], live, style) == None
  {
  }

  lemma FreshMoved(tree: Tree, tables: Tables, live: map<Ref, Resolved>, interned: seq<Ref>)
    ensures Fresh(tree, tables, live) ==> Fresh(tree.(interned := interned), tables, live)
  {
    hide ResolveStyle;
  }

  lemma FreshGives(tree: Tree, tables: Tables, live: map<Ref, Resolved>, d: Definition)
    requires Fresh(tree, tables, live) && d in tree.cached
    ensures d in tree.definitions && tree.cached[d] in live
    ensures live[tree.cached[d]] == ResolveStyle(tables, tree.scope, tree.definitions[d].look)
  {
    hide ResolveStyle;
  }

  lemma CachedIsLive(tree: Tree, live: map<Ref, Resolved>, nextRef: Ref, d: Definition)
    requires TreeOk(tree, live, nextRef) && d in tree.cached
    ensures tree.cached[d] in live
  {
  }

  lemma CachedOneMore(tree: Tree, tables: Tables, live: map<Ref, Resolved>, nextRef: Ref, d: Definition, ref: Ref)
    requires TreeOk(tree, live, nextRef)
    requires d in tree.definitions && ref in live &&
             live[ref] == ResolveStyle(tables, tree.scope, tree.definitions[d].look)
    ensures TreeOk(tree.(cached := tree.cached[d := ref]), live, nextRef)
    ensures Fresh(tree, tables, live) ==> Fresh(tree.(cached := tree.cached[d := ref]), tables, live)
  {
    hide ResolveStyle;
  }
}
