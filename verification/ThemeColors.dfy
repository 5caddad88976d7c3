/** Nested colour tables: flattening into dotted keys, and looking constants up by a dotted path. */
module ThemeColors {
  import opened Json
  import opened Segments

  datatype Flattened = Colors(colors: map<string, string>) | Rejected

  predicate IsReference(text: string) {
    |text| >= 4 && "${" <= text && text[|text| - 1] == '}'
  }

  predicate IsHex(c: char) {
    '0' <= c <= '9' || 'a' <= c <= 'f' || 'A' <= c <= 'F'
  }

  predicate IsColor(text: string) {
    text == "" || (|text| == 7 && text[0] == '#' && forall i :: 1 <= i < 7 ==> IsHex(text[i]))
  }

  /** A colour is empty, or a '#' and six hexadecimal digits of either case. */
  lemma ColorExactly(text: string)
    ensures IsColor(text) <==>
            text == "" || (|text| == 7 && text[0] == '#' && forall c :: c in text[1..] ==> c in HEX_DIGITS)
  {
    forall c ensures IsHex(c) <==> c in HEX_DIGITS {
      DigitIsHex(c);
    }
    if |text| == 7 {
      assert forall i :: 1 <= i < 7 ==> text[i] == text[1..][i - 1];
    }
  }

  const HEX_DIGITS := "0123456789abcdefABCDEF"

  lemma DigitIsHex(c: char)
    ensures IsHex(c) <==> c in HEX_DIGITS
  {
    var d := HEX_DIGITS;
    assert forall i :: 0 <= i < |d| ==> IsHex(d[i]);
    if '0' <= c <= '9' {
      assert d[c as int - '0' as int] == c;
    } else if 'a' <= c <= 'f' {
      assert d[c as int - 'a' as int + 10] == c;
    } else if 'A' <= c <= 'F' {
      assert d[c as int - 'A' as int + 16] == c;
    }
  }

  function JoinPath(prefix: string, key: string): string {
    if prefix == "" then key else prefix + "." + key
  }

  // ---- Flattening ----

  function Flatten(value: Json, prefix: string, colors: map<string, string>): Flattened
    decreases value, 1
  {
    match value
    case String(c) =>
      if prefix == "" || IsReference(c) || !IsColor(c) then Rejected else Colors(colors[prefix := c])
    case Object(fields) => FlattenFields(value, 0, prefix, colors)
    case _ => Rejected
  }

  /** The entries of an object from position `i` on. */
  function FlattenFields(value: Json, i: nat, prefix: string, colors: map<string, string>): Flattened
    requires value.Object? && i <= |value.fields|
    decreases value, 0, |value.fields| - i
  {
    if i == |value.fields| then Colors(colors)
    else
      var e := value.fields[i];
      if e.key == "" then Rejected
      else
        match Flatten(e.value, JoinPath(prefix, e.key), colors)
        case Rejected => Rejected
        case Colors(more) => FlattenFields(value, i + 1, prefix, more)
  }

  // ---- The walk along a dotted path ----

  function ResolvedConstant(constants: Json, path: string): Option<Json> {
    At(constants, Split(path, '.'))
  }

  // ---- Leaves ----

  /** A colour of the nested table with the keys that lead to it. */
  datatype Leaf = Leaf(keys: seq<string>, color: string)
  {
    function Path(): string {
      Join(keys, '.')
    }
  }

  /** The strings below a value, in order; `above` are the keys that lead to it. */
  function Leaves(value: Json, above: seq<string>): seq<Leaf>
    decreases value, 1
  {
    match value
    case String(c) => [Leaf(above, c)]
    case Object(_) => LeavesFrom(value, 0, above)
    case _ => []
  }

  function LeavesFrom(value: Json, i: nat, above: seq<string>): seq<Leaf>
    requires value.Object? && i <= |value.fields|
    decreases value, 0, |value.fields| - i
  {
    if i == |value.fields| then []
    else Leaves(value.fields[i].value, above + [value.fields[i].key]) + LeavesFrom(value, i + 1, above)
  }

  /** Each leaf written under its dotted path; a later one overwrites. */
  function Written(colors: map<string, string>, leaves: seq<Leaf>): map<string, string>
    decreases |leaves|
  {
    if leaves == [] then colors else Written(colors[leaves[0].Path() := leaves[0].color], leaves[1..])
  }

  lemma {:induction false} WrittenAppend(colors: map<string, string>, a: seq<Leaf>, b: seq<Leaf>)
    ensures Written(colors, a + b) == Written(Written(colors, a), b)
    decreases |a|
  {
    if a == [] {
      assert a + b == b;
    } else {
      assert (a + b)[0] == a[0] && (a + b)[1..] == a[1..] + b;
      WrittenAppend(colors[a[0].Path() := a[0].color], a[1..], b);
    }
  }

  predicate NonEmptyKeys(keys: seq<string>) {
    forall i :: 0 <= i < |keys| ==> keys[i] != ""
  }

  lemma PrefixGrows(above: seq<string>, key: string)
    requires NonEmptyKeys(above) && key != ""
    ensures JoinPath(Join(above, '.'), key) == Join(above + [key], '.')
  {
    if above == [] {
      assert [] + [key] == [key];
    } else {
      JoinSnoc(above, key, '.');
      assert above[0] != "";
    }
  }

  /** Flattening writes the leaves in order. */
  lemma {:induction false} FlattenWrites(value: Json, above: seq<string>, colors: map<string, string>)
    requires NonEmptyKeys(above) && Flatten(value, Join(above, '.'), colors).Colors?
    ensures Flatten(value, Join(above, '.'), colors).colors == Written(colors, Leaves(value, above))
    decreases value, 1
  {
    hide Join, IsReference, IsColor;
    if value.Object? {
      FlattenFieldsWrites(value, 0, above, colors);
    } else {
      var leaves := Leaves(value, above);
      assert leaves[1..] == [];
    }
  }

  lemma {:induction false} FlattenFieldsWrites(value: Json, i: nat, above: seq<string>, colors: map<string, string>)
    requires value.Object? && i <= |value.fields|
    requires NonEmptyKeys(above) && FlattenFields(value, i, Join(above, '.'), colors).Colors?
    ensures FlattenFields(value, i, Join(above, '.'), colors).colors == Written(colors, LeavesFrom(value, i, above))
    decreases value, 0, |value.fields| - i
  {
    hide Join, Flatten, Leaves, Written;
    if i < |value.fields| {
      var e := value.fields[i];
      PrefixGrows(above, e.key);
      FlattenWrites(e.value, above + [e.key], colors);
      FlattenFieldsWrites(value, i + 1, above, Written(colors, Leaves(e.value, above + [e.key])));
      WrittenAppend(colors, Leaves(e.value, above + [e.key]), LeavesFrom(value, i + 1, above));
    } else {
      assert Written(colors, []) == colors by { WrittenNothing(colors); }
    }
  }

  lemma WrittenNothing(colors: map<string, string>)
    ensures Written(colors, []) == colors
  {
  }

  /** No later leaf has the same dotted path. */
  predicate IsLast(leaves: seq<Leaf>, i: nat)
    requires i < |leaves|
  {
    forall j :: i < j < |leaves| ==> leaves[j].Path() != leaves[i].Path()
  }

  lemma {:induction false} WrittenHolds(colors: map<string, string>, leaves: seq<Leaf>, p: string)
    ensures forall i :: 0 <= i < |leaves| && IsLast(leaves, i) ==>
      leaves[i].Path() in Written(colors, leaves) && Written(colors, leaves)[leaves[i].Path()] == leaves[i].color
    ensures (forall i :: 0 <= i < |leaves| ==> leaves[i].Path() != p) ==>
      (p in Written(colors, leaves) <==> p in colors) && (p in colors ==> Written(colors, leaves)[p] == colors[p])
    decreases |leaves|
  {
    hide Leaf.Path;
    if leaves != [] {
      var more, rest := colors[leaves[0].Path() := leaves[0].color], leaves[1..];
      WrittenHolds(more, rest, p);
      WrittenHolds(more, rest, leaves[0].Path());
      forall i | 0 <= i < |leaves| && IsLast(leaves, i)
        ensures leaves[i].Path() in Written(more, rest) && Written(more, rest)[leaves[i].Path()] == leaves[i].color
      {
        if i > 0 {
          assert rest[i - 1] == leaves[i] && IsLast(rest, i - 1);
        } else {
          assert forall j :: 0 <= j < |rest| ==> rest[j] == leaves[j + 1];
        }
      }
    }
  }

  lemma {:induction false} LastExists(leaves: seq<Leaf>, p: string, n: nat) returns (i: nat)
    requires n < |leaves| && leaves[n].Path() == p
    ensures i < |leaves| && leaves[i].Path() == p && IsLast(leaves, i)
    decreases |leaves| - n
  {
    hide Leaf.Path;
    if j :| n < j < |leaves| && leaves[j].Path() == p {
      i := LastExists(leaves, p, j);
    } else {
      i := n;
    }
  }

  // ---- The walk finds leaves ----

  lemma {:induction false} LeafKeys(value: Json, above: seq<string>, leaf: Leaf)
    requires leaf in Leaves(value, above)
    ensures above <= leaf.keys && (value.Object? ==> above < leaf.keys)
    decreases value, 1
  {
    if value.Object? {
      LeafKeysFrom(value, 0, above, leaf);
    }
  }

  lemma {:induction false} LeafKeysFrom(value: Json, i: nat, above: seq<string>, leaf: Leaf)
    requires value.Object? && i <= |value.fields| && leaf in LeavesFrom(value, i, above)
    ensures above < leaf.keys
    decreases value, 0, |value.fields| - i
  {
    var key := value.fields[i].key;
    if leaf in Leaves(value.fields[i].value, above + [key]) {
      LeafKeys(value.fields[i].value, above + [key], leaf);
      assert above == (above + [key])[..|above|] == leaf.keys[..|above|];
    } else {
      LeafKeysFrom(value, i + 1, above, leaf);
    }
  }

  /** Walking a key sequence finds a string exactly when there is a leaf with those keys. */
  lemma {:induction false} WalkFindsLeaf(value: Json, above: seq<string>, parts: seq<string>, color: string)
    requires WellFormed(value)
    ensures At(value, parts) == Some(String(color)) <==> Leaf(above + parts, color) in Leaves(value, above)
    decreases value, 1
  {
    if value.Object? {
      WalkFindsLeafFrom(value, 0, above, parts, color);
      if parts == [] {
        assert above + parts == above;
      } else {
        AtStep(value.fields, parts);
      }
    } else if value.String? {
      assert above + parts == above <==> parts == [];
    }
  }

  lemma {:induction false} WalkFindsLeafFrom(value: Json, i: nat, above: seq<string>, parts: seq<string>, color: string)
    requires value.Object? && i <= |value.fields| && WellFormed(value)
    ensures Leaf(above + parts, color) in LeavesFrom(value, i, above) <==>
            parts != [] && i <= IndexOf(value.fields, parts[0]) < |value.fields|
            && At(value.fields[IndexOf(value.fields, parts[0])].value, parts[1..]) == Some(String(color))
    decreases value, 0, |value.fields| - i
  {
    if i < |value.fields| {
      var e, leaf := value.fields[i], Leaf(above + parts, color);
      IndexIs(value.fields, i);
      WalkFindsLeafFrom(value, i + 1, above, parts, color);
      if leaf in Leaves(e.value, above + [e.key]) {
        LeafKeys(e.value, above + [e.key], leaf);
        assert (above + [e.key])[|above|] == leaf.keys[|above|] == e.key;
        assert parts != [] && parts[0] == e.key;
      }
      if parts != [] && parts[0] == e.key {
        assert above + parts == above + [e.key] + parts[1..];
        WalkFindsLeaf(e.value, above + [e.key], parts[1..], color);
      }
    }
  }

  // ---- When both views agree ----

  predicate Dotless(keys: seq<string>) {
    AllFree(keys, '.')
  }

  /** A dotted path names a colour exactly when walking it finds that colour's string. */
  ghost predicate Agrees(value: Json)
    requires value.Object? && Flatten(value, "", map[]).Colors?
  {
    forall p, c :: p in Flatten(value, "", map[]).colors && Flatten(value, "", map[]).colors[p] == c <==>
                   ResolvedConstant(value, p) == Some(String(c))
  }

  /** Every leaf below a key with a dot is overwritten later, or says what a leaf without such a key says. */
  predicate DotsHarmless(leaves: seq<Leaf>) {
    forall i :: 0 <= i < |leaves| && IsLast(leaves, i) && !Dotless(leaves[i].keys) ==>
      exists k :: 0 <= k < |leaves| && Dotless(leaves[k].keys)
                  && leaves[k].Path() == leaves[i].Path() && leaves[k].color == leaves[i].color
  }

  lemma EmptyJoin()
    ensures Join([], '.') == ""
  {
  }

  lemma WalkIsLeaf(value: Json, p: string, c: string)
    requires WellFormed(value)
    ensures ResolvedConstant(value, p) == Some(String(c)) <==> Leaf(Split(p, '.'), c) in Leaves(value, [])
  {
    WalkFindsLeaf(value, [], Split(p, '.'), c);
    assert [] + Split(p, '.') == Split(p, '.');
  }

  lemma SplitOfLeaf(value: Json, leaf: Leaf)
    requires value.Object? && leaf in Leaves(value, [])
    ensures Dotless(leaf.keys) <==> Split(leaf.Path(), '.') == leaf.keys
  {
    LeafKeys(value, [], leaf);
    if Dotless(leaf.keys) {
      SplitJoin(leaf.keys, '.');
    }
  }

  /** The last leaf under a path says what the walk finds there. */
  lemma LastLeafFound(value: Json, leaves: seq<Leaf>, i: nat)
    requires value.Object? && WellFormed(value) && leaves == Leaves(value, []) && DotsHarmless(leaves)
    requires i < |leaves| && IsLast(leaves, i)
    ensures ResolvedConstant(value, leaves[i].Path()) == Some(String(leaves[i].color))
  {
    hide Leaves, Split, Join, Dotless;
    var k := i;
    if !Dotless(leaves[i].keys) {
      k :| 0 <= k < |leaves| && Dotless(leaves[k].keys)
           && leaves[k].Path() == leaves[i].Path() && leaves[k].color == leaves[i].color;
    }
    SplitOfLeaf(value, leaves[k]);
    WalkIsLeaf(value, leaves[i].Path(), leaves[i].color);
    assert leaves[k] == Leaf(leaves[k].keys, leaves[k].color);
  }

  /**
   * A flattened table agrees with the path walk on all paths and colours exactly when no leaf below a dotted key,
   * that is not overwritten, says anything of its own.
   */
  lemma FlattenedIsWalkExactly(value: Json)
    requires value.Object? && WellFormed(value) && Flatten(value, "", map[]).Colors?
    ensures Agrees(value) <==> DotsHarmless(Leaves(value, []))
  {
    hide Leaves, Split, Join, Dotless, Flatten, ResolvedConstant;
    var leaves, colors := Leaves(value, []), Flatten(value, "", map[]).colors;
    EmptyJoin();
    FlattenWrites(value, [], map[]);
    if Agrees(value) {
      forall i | 0 <= i < |leaves| && IsLast(leaves, i) && !Dotless(leaves[i].keys)
        ensures exists k :: 0 <= k < |leaves| && Dotless(leaves[k].keys)
                            && leaves[k].Path() == leaves[i].Path() && leaves[k].color == leaves[i].color
      {
        AgreeingLeaf(value, leaves, i);
      }
    }
    if DotsHarmless(leaves) {
      forall p, c ensures p in colors && colors[p] == c <==> ResolvedConstant(value, p) == Some(String(c)) {
        HarmlessAgrees(value, leaves, p, c);
      }
    }
  }

  lemma AgreeingLeaf(value: Json, leaves: seq<Leaf>, i: nat)
    requires value.Object? && WellFormed(value) && leaves == Leaves(value, []) && i < |leaves| && IsLast(leaves, i)
    requires Flatten(value, "", map[]).Colors? && Flatten(value, "", map[]).colors == Written(map[], leaves) &&
             Agrees(value)
    ensures exists k :: 0 <= k < |leaves| && Dotless(leaves[k].keys)
                        && leaves[k].Path() == leaves[i].Path() && leaves[k].color == leaves[i].color
  {
    hide Leaves, Split, Join, Flatten, Written, ResolvedConstant;
    var p, c := leaves[i].Path(), leaves[i].color;
    WrittenHolds(map[], leaves, p);
    assert ResolvedConstant(value, p) == Some(String(c));
    WalkIsLeaf(value, p, c);
    var k :| 0 <= k < |leaves| && leaves[k] == Leaf(Split(p, '.'), c);
    JoinSplit(p, '.');
    assert Dotless(leaves[k].keys) && leaves[k].Path() == p;
  }

  lemma HarmlessAgrees(value: Json, leaves: seq<Leaf>, p: string, c: string)
    requires value.Object? && WellFormed(value) && leaves == Leaves(value, []) && DotsHarmless(leaves)
    ensures p in Written(map[], leaves) && Written(map[], leaves)[p] == c <==>
      ResolvedConstant(value, p) == Some(String(c))
  {
    hide Leaves, Split, Join, Dotless, Written, ResolvedConstant;
    WrittenHolds(map[], leaves, p);
    WalkIsLeaf(value, p, c);
    JoinSplit(p, '.');
    assert Leaf(Split(p, '.'), c).Path() == p;
    if n :| 0 <= n < |leaves| && leaves[n].Path() == p {
      var i := LastExists(leaves, p, n);
      LastLeafFound(value, leaves, i);
    }
  }

  /** Every key below can be one segment of a dotted path. */
  predicate DotFree(value: Json) {
    value.Object? ==> forall i :: 0 <= i < |value.fields| ==>
      Free(value.fields[i].key, '.') && DotFree(value.fields[i].value)
  }

  lemma {:induction false} DotFreeLeaves(value: Json, above: seq<string>, leaf: Leaf)
    requires DotFree(value) && Dotless(above) && leaf in Leaves(value, above)
    ensures Dotless(leaf.keys)
    decreases value, 1
  {
    if value.Object? {
      DotFreeLeavesFrom(value, 0, above, leaf);
    }
  }

  lemma {:induction false} DotFreeLeavesFrom(value: Json, i: nat, above: seq<string>, leaf: Leaf)
    requires value.Object? && i <= |value.fields| && DotFree(value) && Dotless(above) &&
             leaf in LeavesFrom(value, i, above)
    ensures Dotless(leaf.keys)
    decreases value, 0, |value.fields| - i
  {
    if leaf in Leaves(value.fields[i].value, above + [value.fields[i].key]) {
      DotFreeLeaves(value.fields[i].value, above + [value.fields[i].key], leaf);
    } else {
      DotFreeLeavesFrom(value, i + 1, above, leaf);
    }
  }

  /** Without dots in keys a flattened table agrees with the path walk. */
  lemma FlattenedIsWalk(value: Json, path: string, color: string)
    requires value.Object? && WellFormed(value) && DotFree(value) && Flatten(value, "", map[]).Colors?
    ensures var colors := Flatten(value, "", map[]).colors;
            path in colors && colors[path] == color <==> ResolvedConstant(value, path) == Some(String(color))
  {
    hide Flatten, Leaves, ResolvedConstant, DotFree;
    var leaves := Leaves(value, []);
    forall i | 0 <= i < |leaves| ensures Dotless(leaves[i].keys) {
      DotFreeLeaves(value, [], leaves[i]);
    }
    FlattenedIsWalkExactly(value);
  }

  /** When no two colours share a dotted path, the views agree exactly when no colour lies below a dotted key. */
  lemma DistinctPathsAgree(value: Json)
    requires value.Object? && WellFormed(value) && Flatten(value, "", map[]).Colors?
    requires var l := Leaves(value, []); forall i, j :: 0 <= i < j < |l| ==> l[i].Path() != l[j].Path()
    ensures Agrees(value) <==> forall leaf :: leaf in Leaves(value, []) ==> Dotless(leaf.keys)
  {
    hide Flatten, Leaves, ResolvedConstant, Dotless, Agrees;
    FlattenedIsWalkExactly(value);
    var leaves := Leaves(value, []);
    forall i | 0 <= i < |leaves| ensures IsLast(leaves, i) {
    }
  }

  /** Flattening succeeds exactly when every leaf is a colour and no key is empty. */
  predicate AllColors(value: Json, top: bool) {
    match value
    case String(c) => !top && !IsReference(c) && IsColor(c)
    case Object(fields) => forall i :: 0 <= i < |fields| ==> fields[i].key != "" && AllColors(fields[i].value, false)
    case _ => false
  }

  lemma {:induction false} FlattenSucceeds(value: Json, prefix: string, colors: map<string, string>)
    ensures Flatten(value, prefix, colors).Colors? <==> AllColors(value, prefix == "")
    decreases value, 1
  {
    if value.Object? {
      FlattenFieldsSucceeds(value, 0, prefix, colors);
    }
  }

  lemma {:induction false} FlattenFieldsSucceeds(value: Json, i: nat, prefix: string, colors: map<string, string>)
    requires value.Object? && i <= |value.fields|
    ensures FlattenFields(value, i, prefix, colors).Colors? <==>
            forall j :: i <= j < |value.fields| ==> value.fields[j].key != "" && AllColors(value.fields[j].value, false)
    decreases value, 0, |value.fields| - i
  {
    if i < |value.fields| {
      var e := value.fields[i];
      var path := JoinPath(prefix, e.key);
      if e.key != "" {
        FlattenSucceeds(e.value, path, colors);
        var first := Flatten(e.value, path, colors);
        if first.Colors? {
          FlattenFieldsSucceeds(value, i + 1, prefix, first.colors);
        }
      }
    }
  }

  /** A key with a dot in it becomes a colour no path walk can find. */
  lemma DottedKeyIsLost()
    ensures var value := Object([Entry("a.b", String("#102030"))]);
            && Flatten(value, "", map[]) == Colors(map["a.b" := "#102030"])
            && ResolvedConstant(value, "a.b") == None
  {
    var value := Object([Entry("a.b", String("#102030"))]);
    assert IsColor("#102030");
    assert FlattenFields(value, 1, "", map["a.b" := "#102030"]) == Colors(map["a.b" := "#102030"]);
    assert "a.b"[..1] == "a";
    SplitAtMark("a.b", '.', 1);
    assert IndexOf(value.fields, "a") == 1;
  }

  /** Or it overwrites the colour the walk finds. */
  lemma DottedKeyOverwrites()
    ensures var value := Object([Entry("a", Object([Entry("b", String("#111111"))])), Entry("a.b", String("#222222"))]);
            && Flatten(value, "", map[]) == Colors(map["a.b" := "#222222"])
            && ResolvedConstant(value, "a.b") == Some(String("#111111"))
  {
    var inner := Object([Entry("b", String("#111111"))]);
    var value := Object([Entry("a", inner), Entry("a.b", String("#222222"))]);
    assert IsColor("#111111") && IsColor("#222222") && !IsReference("#111111") && !IsReference("#222222");
    hide IsColor, IsReference;
    var first := map["a.b" := "#111111"];
    assert JoinPath("a", "b") == "a.b";
    assert FlattenFields(inner, 1, "a", first) == Colors(first);
    assert Flatten(inner, "a", map[]) == Colors(first);
    assert first["a.b" := "#222222"] == map["a.b" := "#222222"];
    assert FlattenFields(value, 2, "", map["a.b" := "#222222"]) == Colors(map["a.b" := "#222222"]);
    assert FlattenFields(value, 1, "", first) == Colors(map["a.b" := "#222222"]);
    assert "a.b"[..1] == "a" && "a.b"[2..] == "b" && "b"[..1] == "b";
    SplitAtMark("a.b", '.', 1);
    SplitAtMark("b", '.', 1);
    assert Split("a.b", '.') == ["a", "b"] && ["a", "b"][1..] == ["b"] && ["b"][1..] == [];
    assert IndexOf(value.fields, "a") == 0 && IndexOf(inner.fields, "b") == 0;
    AtStep(value.fields, ["a", "b"]);
    AtStep(inner.fields, ["b"]);
  }

  // ---- Loops ----

  method FlattenColorConstants(value: Json, prefix: string, colors: map<string, string>) returns (r: Flattened)
    ensures r == Flatten(value, prefix, colors)
    decreases value
  {
    hide IsReference, IsColor;
    if value.String? {
      return if prefix == "" || IsReference(value.s) || !IsColor(value.s) then Rejected
             else Colors(colors[prefix := value.s]);
    }
    if !value.Object? {
      return Rejected;
    }
    var sofar := colors;
    for i := 0 to |value.fields|
      invariant FlattenFields(value, i, prefix, sofar) == FlattenFields(value, 0, prefix, colors)
    {
      var e := value.fields[i];
      if e.key == "" {
        return Rejected;
      }
      var child := FlattenColorConstants(e.value, JoinPath(prefix, e.key), sofar);
      if child.Rejected? {
        return Rejected;
      }
      sofar := child.colors;
    }
    r := Colors(sofar);
  }

  method ResolveConstant(constants: Json, path: string) returns (found: Option<Json>)
    ensures found == ResolvedConstant(constants, path)
  {
    hide Split;
    var current := constants;
    var begin := 0;
    assert path[0..] == path;
    while begin <= |path|
      invariant begin <= |path|
      invariant At(current, Split(path[begin..], '.')) == ResolvedConstant(constants, path)
      decreases |path| - begin
    {
      var end := FindMark(path, begin, '.');
      var segment := path[begin..end];
      var rest := path[begin..];
      assert rest[..end - begin] == segment && (end < |path| ==> rest[end - begin + 1..] == path[end + 1..]);
      SplitAtMark(rest, '.', end - begin);
      if !current.Object? {
        return None;
      }
      AtStep(current.fields, Split(rest, '.'));
      var at := IndexOf(current.fields, segment);
      if at == |current.fields| {
        return None;
      }
      current := current.fields[at].value;
      if end == |path| {
        assert rest == segment && [rest][1..] == [];
        break;
      }
      begin := end + 1;
    }
    found := Some(current);
  }
}
