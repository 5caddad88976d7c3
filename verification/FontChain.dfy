/** Font fallback search: breadth first over a graph that may be cyclic and may name fonts nobody registered. */
module FontChain {

  datatype Font = Font(src: string, natives: seq<nat>, fallbacks: seq<string>)

  type Fonts = map<string, Font>

  // ---- The search ----

  /** Every id some registered font falls back to. */
  function Mentioned(fonts: Fonts): set<string> {
    set id, k | id in fonts && 0 <= k < |fonts[id].fallbacks| :: fonts[id].fallbacks[k]
  }

  predicate AllMentioned(fonts: Fonts, ids: seq<string>) {
    forall i :: 0 <= i < |ids| ==> ids[i] in Mentioned(fonts)
  }

  function Onward(fonts: Fonts, id: string): seq<string> {
    if id in fonts then fonts[id].fallbacks else []
  }

  lemma OnwardMentioned(fonts: Fonts, id: string)
    ensures AllMentioned(fonts, Onward(fonts, id))
  {
  }

  lemma FewerLeft(all: set<string>, visited: set<string>, id: string)
    requires id in all && id !in visited
    ensures |all - (visited + {id})| < |all - visited|
  {
    assert all - (visited + {id}) == (all - visited) - {id};
  }

  /** Mentioned ids not visited yet. */
  function Left(fonts: Fonts, visited: set<string>): nat {
    |Mentioned(fonts) - visited|
  }

  /** The registered fonts in the order the worklist reaches them. */
  function Visit(fonts: Fonts, pending: seq<string>, visited: set<string>): seq<string>
    requires AllMentioned(fonts, pending)
    decreases Left(fonts, visited), |pending|
  {
    if pending == [] then []
    else if pending[0] in visited then Visit(fonts, pending[1..], visited)
    else
      var id := pending[0];
      FewerLeft(Mentioned(fonts), visited, id);
      OnwardMentioned(fonts, id);
      (if id in fonts then [id] else []) + Visit(fonts, pending[1..] + Onward(fonts, id), visited + {id})
  }

  function Chain(fonts: Fonts, start: string): seq<string> {
    OnwardMentioned(fonts, start);
    Visit(fonts, Onward(fonts, start), {})
  }

  // ---- What the order means ----

  /** `to` is `n` fallback edges away from `start`, passing only through registered fonts. */
  ghost predicate Reaches(fonts: Fonts, start: string, to: string, n: nat)
    decreases n
  {
    if n == 0 then false
    else if n == 1 then to in Onward(fonts, start)
    else exists mid :: Reaches(fonts, start, mid, n - 1) && to in Onward(fonts, mid)
  }

  ghost predicate Within(fonts: Fonts, start: string, to: string, n: nat) {
    exists m: nat :: m <= n && Reaches(fonts, start, to, m)
  }

  /** A worklist entry or visited font with the depth it was found at. */
  type Depths = map<string, nat>

  ghost predicate PendingOk(fonts: Fonts, start: string, pending: seq<string>, depths: seq<nat>) {
    && |depths| == |pending|
    && (forall i :: 0 <= i < |pending| ==> Reaches(fonts, start, pending[i], depths[i]))
    && (forall i, j :: 0 <= i < j < |depths| ==> depths[i] <= depths[j] <= depths[0] + 1)
  }

  ghost predicate VisitedOk(fonts: Fonts, start: string, visited: Depths) {
    forall id :: id in visited ==> Reaches(fonts, start, id, visited[id])
  }

  ghost predicate Queued(pending: seq<string>, depths: seq<nat>, id: string, n: nat)
    requires |depths| == |pending|
  {
    exists i :: 0 <= i < |pending| && pending[i] == id && depths[i] <= n
  }

  /** Found at depth at most `n`, or waiting to be. */
  ghost predicate Known(visited: Depths, pending: seq<string>, depths: seq<nat>, id: string, n: nat)
    requires |depths| == |pending|
  {
    (id in visited && visited[id] <= n) || Queued(pending, depths, id, n)
  }

  ghost predicate Closed(fonts: Fonts, start: string, visited: Depths, pending: seq<string>, depths: seq<nat>)
    requires |depths| == |pending|
  {
    && (forall id :: id in Onward(fonts, start) ==> Known(visited, pending, depths, id, 1))
    && (forall u, id :: u in visited && id in Onward(fonts, u) ==> Known(visited, pending, depths, id, visited[u] + 1))
  }

  ghost predicate NotDeeper(visited: Depths, depths: seq<nat>) {
    depths != [] ==> forall id :: id in visited ==> visited[id] <= depths[0]
  }

  ghost predicate Inv(fonts: Fonts, start: string, visited: Depths, pending: seq<string>, depths: seq<nat>) {
    && PendingOk(fonts, start, pending, depths)
    && VisitedOk(fonts, start, visited)
    && Closed(fonts, start, visited, pending, depths)
    && NotDeeper(visited, depths)
  }

  /** What one step of the worklist does to the depths. */
  function After(fonts: Fonts, pending: seq<string>, depths: seq<nat>): (r: seq<nat>)
    requires pending != [] && |depths| == |pending|
    ensures |r| == |pending[1..] + Onward(fonts, pending[0])|
  {
    depths[1..] + seq(|Onward(fonts, pending[0])|, _ => depths[0] + 1)
  }

  lemma SkipKeeps(fonts: Fonts, start: string, visited: Depths, pending: seq<string>, depths: seq<nat>)
    requires Inv(fonts, start, visited, pending, depths) && pending != [] && pending[0] in visited
    ensures Inv(fonts, start, visited, pending[1..], depths[1..])
  {
    hide Reaches;
    forall id, n | Queued(pending, depths, id, n) ensures Known(visited, pending[1..], depths[1..], id, n) {
      var i :| 0 <= i < |pending| && pending[i] == id && depths[i] <= n;
      if i > 0 {
        assert pending[1..][i - 1] == id;
      }
    }
  }

  lemma ExpandPending(fonts: Fonts, start: string, pending: seq<string>, depths: seq<nat>)
    requires PendingOk(fonts, start, pending, depths) && pending != []
    ensures PendingOk(fonts, start, pending[1..] + Onward(fonts, pending[0]), After(fonts, pending, depths))
  {
    var id, next, deeper := pending[0], pending[1..] + Onward(fonts, pending[0]), After(fonts, pending, depths);
    assert Reaches(fonts, start, id, depths[0]);
    forall i | 0 <= i < |next| ensures Reaches(fonts, start, next[i], deeper[i]) {
      if i < |pending| - 1 {
        assert next[i] == pending[i + 1] && deeper[i] == depths[i + 1];
      } else {
        assert next[i] in Onward(fonts, id) && deeper[i] == depths[0] + 1;
      }
    }
  }

  lemma ExpandKnown(fonts: Fonts, visited: Depths, pending: seq<string>, depths: seq<nat>, id: string, n: nat)
    requires |depths| == |pending| && pending != [] && pending[0] !in visited
    requires Known(visited, pending, depths, id, n)
    ensures Known(visited[pending[0] := depths[0]], pending[1..] + Onward(fonts, pending[0]),
        After(fonts, pending, depths), id, n)
  {
    if Queued(pending, depths, id, n) {
      var i :| 0 <= i < |pending| && pending[i] == id && depths[i] <= n;
      if i > 0 {
        assert (pending[1..] + Onward(fonts, pending[0]))[i - 1] == id;
      }
    }
  }

  lemma ExpandClosed(fonts: Fonts, start: string, visited: Depths, pending: seq<string>, depths: seq<nat>)
    requires |depths| == |pending| && pending != [] && pending[0] !in visited
    requires Closed(fonts, start, visited, pending, depths)
    ensures Closed(fonts, start, visited[pending[0] := depths[0]], pending[1..] + Onward(fonts, pending[0]),
                   After(fonts, pending, depths))
  {
    hide Known, Onward;
    var now, next, deeper := visited[pending[0] := depths[0]], pending[1..] + Onward(fonts, pending[0]),
                             After(fonts, pending, depths);
    forall id | id in Onward(fonts, start) ensures Known(now, next, deeper, id, 1) {
      ExpandKnown(fonts, visited, pending, depths, id, 1);
    }
    forall u, id | u in now && id in Onward(fonts, u) ensures Known(now, next, deeper, id, now[u] + 1) {
      if u == pending[0] {
        ExpandQueues(fonts, visited, pending, depths, id);
      } else {
        ExpandKnown(fonts, visited, pending, depths, id, visited[u] + 1);
      }
    }
  }

  lemma ExpandQueues(fonts: Fonts, visited: Depths, pending: seq<string>, depths: seq<nat>, id: string)
    requires |depths| == |pending| && pending != [] && id in Onward(fonts, pending[0])
    ensures Known(visited[pending[0] := depths[0]], pending[1..] + Onward(fonts, pending[0]),
        After(fonts, pending, depths),
                  id, depths[0] + 1)
  {
    var onward := Onward(fonts, pending[0]);
    var k :| 0 <= k < |onward| && onward[k] == id;
    assert (pending[1..] + onward)[|pending| - 1 + k] == id;
  }

  lemma ExpandKeeps(fonts: Fonts, start: string, visited: Depths, pending: seq<string>, depths: seq<nat>)
    requires Inv(fonts, start, visited, pending, depths) && pending != [] && pending[0] !in visited
    ensures Inv(fonts, start, visited[pending[0] := depths[0]], pending[1..] + Onward(fonts, pending[0]),
                After(fonts, pending, depths))
  {
    hide Reaches, Closed, Onward;
    ExpandPending(fonts, start, pending, depths);
    ExpandClosed(fonts, start, visited, pending, depths);
  }

  predicate Distinct(ids: seq<string>) {
    forall i, j :: 0 <= i < j < |ids| ==> ids[i] != ids[j]
  }

  /** The fonts found are new and registered, each once, none missing, and no deeper than the ones after it. */
  ghost predicate Found(fonts: Fonts, visited: Depths, final: Depths, out: seq<string>, least: nat) {
    && Distinct(out)
    && visited.Keys <= final.Keys && (forall id :: id in visited ==> final[id] == visited[id])
    && (forall id :: id in out <==> id in fonts && id in final && id !in visited)
    && (forall i :: 0 <= i < |out| ==> least <= final[out[i]])
    && (forall i, j :: 0 <= i < j < |out| ==> final[out[i]] <= final[out[j]])
  }

  lemma FoundOneMore(fonts: Fonts, visited: Depths, final: Depths, out: seq<string>, id: string, d: nat, least: nat)
    requires id !in visited && least <= d && Found(fonts, visited[id := d], final, out, d)
    ensures Found(fonts, visited, final, (if id in fonts then [id] else []) + out, least)
  {
    assert id in visited[id := d];
    var all := (if id in fonts then [id] else []) + out;
    assert id in final && final[id] == d;
    assert id !in out;
    forall x ensures x in all <==> x in fonts && x in final && x !in visited {
    }
    assert forall x :: x in out ==> x in final && d <= final[x];
  }

  lemma NothingFound(fonts: Fonts, visited: Depths, least: nat)
    ensures Found(fonts, visited, visited, [], least)
  {
  }

  predicate NotBelow(least: nat, depths: seq<nat>) {
    depths != [] ==> least <= depths[0]
  }

  lemma StepsNotBelow(fonts: Fonts, start: string, visited: Depths, pending: seq<string>, depths: seq<nat>, least: nat)
    requires Inv(fonts, start, visited, pending, depths) && pending != [] && NotBelow(least, depths)
    ensures NotBelow(least, depths[1..]) && NotBelow(depths[0], After(fonts, pending, depths))
  {
  }

  lemma VisitStep(fonts: Fonts, pending: seq<string>, visited: set<string>)
    requires AllMentioned(fonts, pending) && pending != []
    ensures AllMentioned(fonts, pending[1..]) && AllMentioned(fonts, pending[1..] + Onward(fonts, pending[0]))
    ensures pending[0] in visited ==> Visit(fonts, pending, visited) == Visit(fonts, pending[1..], visited)
    ensures pending[0] !in visited ==>
              Visit(fonts, pending, visited)
              == (if pending[0] in fonts then [pending[0]] else [])
                 + Visit(fonts, pending[1..] + Onward(fonts, pending[0]), visited + {pending[0]})
    ensures pending[0] !in visited ==> Left(fonts, visited + {pending[0]}) < Left(fonts, visited)
  {
    OnwardMentioned(fonts, pending[0]);
    if pending[0] !in visited {
      FewerLeft(Mentioned(fonts), visited, pending[0]);
    }
  }

  lemma VisitNothing(fonts: Fonts, visited: set<string>)
    ensures Visit(fonts, [], visited) == []
  {
  }

  lemma {:induction false} Explore(fonts: Fonts, start: string, visited: Depths, pending: seq<string>, depths: seq<nat>,
                                   least: nat) returns (final: Depths)
    requires AllMentioned(fonts, pending) && |depths| == |pending|
    requires Inv(fonts, start, visited, pending, depths) && NotBelow(least, depths)
    ensures Inv(fonts, start, final, [], [])
    ensures Found(fonts, visited, final, Visit(fonts, pending, visited.Keys), least)
    decreases Left(fonts, visited.Keys), |pending|
  {
    hide Found, Onward, Inv, Visit, Left, AllMentioned, NotBelow, After;
    if pending == [] {
      final := visited;
      VisitNothing(fonts, visited.Keys);
      NothingFound(fonts, visited, least);
      assert depths == [];
    } else {
      var id, d := pending[0], depths[0];
      VisitStep(fonts, pending, visited.Keys);
      StepsNotBelow(fonts, start, visited, pending, depths, least);
      if id in visited {
        SkipKeeps(fonts, start, visited, pending, depths);
        final := Explore(fonts, start, visited, pending[1..], depths[1..], least);
      } else {
        ExpandKeeps(fonts, start, visited, pending, depths);
        assert visited[id := d].Keys == visited.Keys + {id};
        var next, deeper := pending[1..] + Onward(fonts, id), After(fonts, pending, depths);
        final := Explore(fonts, start, visited[id := d], next, deeper, d);
        FirstNotBelow(least, depths);
        FoundOneMore(fonts, visited, final, Visit(fonts, next, visited.Keys + {id}), id, d, least);
      }
    }
  }

  lemma FirstNotBelow(least: nat, depths: seq<nat>)
    requires depths != [] && NotBelow(least, depths)
    ensures least <= depths[0]
  {
  }

  /** When the worklist is empty every font within n edges has been found at depth at most n. */
  lemma {:induction false} AllFound(fonts: Fonts, start: string, final: Depths, id: string, n: nat)
    requires Closed(fonts, start, final, [], []) && Reaches(fonts, start, id, n)
    ensures id in final && final[id] <= n
    decreases n
  {
    if n == 1 {
      assert Known(final, [], [], id, 1);
    } else {
      var mid :| Reaches(fonts, start, mid, n - 1) && id in Onward(fonts, mid);
      AllFound(fonts, start, final, mid, n - 1);
      assert Known(final, [], [], id, final[mid] + 1);
    }
  }

  lemma StartOk(fonts: Fonts, start: string)
    ensures var pending := Onward(fonts, start);
            Inv(fonts, start, map[], pending, seq(|pending|, _ => 1))
  {
    var pending := Onward(fonts, start);
    var depths := seq(|pending|, _ => 1);
    forall id | id in pending ensures Known(map[], pending, depths, id, 1) {
      var i :| 0 <= i < |pending| && pending[i] == id;
      assert Queued(pending, depths, id, 1);
    }
  }

  ghost predicate Reachable(fonts: Fonts, start: string, id: string) {
    exists n: nat :: Reaches(fonts, start, id, n)
  }

  /**
   * On every fallback graph the chain lists each registered font reachable by one or more fallback edges exactly
   * once and nothing else, and never a farther font before a nearer one.
   */
  lemma ChainIsBreadthFirst(fonts: Fonts, start: string)
    ensures var chain := Chain(fonts, start);
            && Distinct(chain)
            && (forall id :: id in chain <==> id in fonts && Reachable(fonts, start, id))
            && (forall i, j, n: nat :: 0 <= i < j < |chain| && Reaches(fonts, start, chain[j], n)
                  ==> Within(fonts, start, chain[i], n))
  {
    hide Reaches, Onward, Visit, Closed;
    OnwardMentioned(fonts, start);
    StartOk(fonts, start);
    var pending := Onward(fonts, start);
    var final := Explore(fonts, start, map[], pending, seq(|pending|, _ => 1), 0);
    var chain := Chain(fonts, start);
    var none: Depths := map[];
    assert none.Keys == {};
    assert Found(fonts, none, final, chain, 0);
    forall id ensures id in chain <==> id in fonts && Reachable(fonts, start, id) {
      if id in fonts && Reachable(fonts, start, id) {
        var n: nat :| Reaches(fonts, start, id, n);
        AllFound(fonts, start, final, id, n);
      }
      if id in chain {
        assert Reaches(fonts, start, id, final[id]);
      }
    }
    forall i, j, n: nat | 0 <= i < j < |chain| && Reaches(fonts, start, chain[j], n)
      ensures Within(fonts, start, chain[i], n)
    {
      AllFound(fonts, start, final, chain[j], n);
      assert chain[i] in chain;
      assert Reaches(fonts, start, chain[i], final[chain[i]]);
    }
  }

  /** The requested font comes up again among its own fallbacks exactly when it lies on a cycle. */
  lemma SelfInChain(fonts: Fonts, start: string)
    ensures start in Chain(fonts, start) <==> start in fonts && Reachable(fonts, start, start)
  {
    ChainIsBreadthFirst(fonts, start);
  }

  // ---- The order of equally near fonts ----

  /** The ids the requested font and then the listed fonts, in order, fall back to. */
  function Mentions(fonts: Fonts, start: string, chain: seq<string>): seq<string> {
    if chain == [] then Onward(fonts, start)
    else Mentions(fonts, start, chain[..|chain| - 1]) + Onward(fonts, chain[|chain| - 1])
  }

  /** The registered ids of a list, each at its first occurrence. */
  function FirstMentions(fonts: Fonts, ids: seq<string>): seq<string> {
    if ids == [] then []
    else
      var front, last := ids[..|ids| - 1], ids[|ids| - 1];
      FirstMentions(fonts, front) + if last in fonts && last !in front then [last] else []
  }

  /** One turn of the worklist, seen through the list of mentions. */
  lemma MentionStep(fonts: Fonts, start: string, out: seq<string>, done: seq<string>, pending: seq<string>)
    requires pending != [] && Mentions(fonts, start, out) == done + pending && FirstMentions(fonts, done) == out
    ensures var id, more := pending[0], done + [pending[0]];
            var next := out + if id in fonts && id !in done then [id] else [];
            var rest := if id in done then pending[1..] else pending[1..] + Onward(fonts, id);
            FirstMentions(fonts, more) == next && Mentions(fonts, start, next) == more + rest
  {
    var id, more := pending[0], done + [pending[0]];
    assert more[..|more| - 1] == done && more[|more| - 1] == id;
    assert done + pending == more + pending[1..];
    if id in fonts && id !in done {
      var next := out + [id];
      assert next[..|next| - 1] == out && next[|next| - 1] == id;
      assert more + pending[1..] + Onward(fonts, id) == more + (pending[1..] + Onward(fonts, id));
    } else {
      assert out + [] == out;
    }
  }

  lemma {:induction false} VisitMentions(fonts: Fonts, start: string, out: seq<string>, done: seq<string>,
                                         pending: seq<string>, visited: set<string>)
    requires AllMentioned(fonts, pending) && Mentions(fonts, start, out) == done + pending &&
             FirstMentions(fonts, done) == out
    requires forall x :: x in visited <==> x in done
    ensures var chain := out + Visit(fonts, pending, visited);
            FirstMentions(fonts, Mentions(fonts, start, chain)) == chain
    decreases Left(fonts, visited), |pending|
  {
    hide Visit, Left, AllMentioned, Mentions, FirstMentions, Onward;
    if pending == [] {
      VisitNothing(fonts, visited);
      assert done + [] == done && out + [] == out;
    } else {
      var id, more := pending[0], done + [pending[0]];
      VisitStep(fonts, pending, visited);
      MentionStep(fonts, start, out, done, pending);
      if id in visited {
        assert out + [] == out;
        VisitMentions(fonts, start, out, more, pending[1..], visited);
      } else {
        var found := if id in fonts then [id] else [];
        VisitMentions(fonts, start, out + found, more, pending[1..] + Onward(fonts, id), visited + {id});
        var rest := Visit(fonts, pending[1..] + Onward(fonts, id), visited + {id});
        assert out + found + rest == out + (found + rest);
      }
    }
  }

  /**
   * The chain lists its fonts in the order in which the requested font's fallbacks, then those of the first font of the
   * chain, then those of the second one and so on first mention them; this decides between equally near fonts.
   */
  lemma ChainInMentionOrder(fonts: Fonts, start: string)
    ensures FirstMentions(fonts, Mentions(fonts, start, Chain(fonts, start))) == Chain(fonts, start)
  {
    hide Visit;
    OnwardMentioned(fonts, start);
    assert [] + Onward(fonts, start) == Onward(fonts, start);
    VisitMentions(fonts, start, [], [], Onward(fonts, start), {});
    assert [] + Chain(fonts, start) == Chain(fonts, start);
  }

  // ---- Choosing the font of a style ----

  /** The font handed to the backend; all empty when nothing was found. */
  datatype ResolvedFont = ResolvedFont(id: string, src: string, natives: seq<nat>, fallbackSrcs: seq<string>)

  const NO_FONT := ResolvedFont("", "", [], [])

  function Sources(fonts: Fonts, chain: seq<string>): seq<string>
    requires forall i :: 0 <= i < |chain| ==> chain[i] in fonts
  {
    seq(|chain|, i requires 0 <= i < |chain| => fonts[chain[i]].src)
  }

  lemma ChainRegistered(fonts: Fonts, start: string)
    ensures forall i :: 0 <= i < |Chain(fonts, start)| ==> Chain(fonts, start)[i] in fonts
  {
    ChainIsBreadthFirst(fonts, start);
    forall i | 0 <= i < |Chain(fonts, start)| ensures Chain(fonts, start)[i] in fonts {
      assert Chain(fonts, start)[i] in Chain(fonts, start);
    }
  }

  function FontFor(fonts: Fonts, requested: string): ResolvedFont {
    var id := if requested == "" then "default" else requested;
    if id !in fonts then NO_FONT
    else
      ChainRegistered(fonts, id);
      ResolvedFont(id, fonts[id].src, fonts[id].natives, Sources(fonts, Chain(fonts, id)))
  }

  /** The registered fonts reachable from `start`, each once, nearer ones first and equally near ones as mentioned. */
  ghost predicate BreadthFirst(fonts: Fonts, start: string, chain: seq<string>) {
    && Distinct(chain)
    && (forall id :: id in chain <==> id in fonts && Reachable(fonts, start, id))
    && (forall i, j, n: nat :: 0 <= i < j < |chain| && Reaches(fonts, start, chain[j], n) ==>
          Within(fonts, start, chain[i], n))
    && FirstMentions(fonts, Mentions(fonts, start, chain)) == chain
  }

  predicate SourcesAre(fonts: Fonts, chain: seq<string>, srcs: seq<string>) {
    |srcs| == |chain| && forall i :: 0 <= i < |chain| ==> chain[i] in fonts && srcs[i] == fonts[chain[i]].src
  }

  /** What a request must give: nothing for an unknown font, else its own data and the sources of its fallbacks. */
  ghost predicate IsFont(fonts: Fonts, requested: string, font: ResolvedFont) {
    var id := if requested == "" then "default" else requested;
    if id !in fonts then font.id == "" && font.src == "" && font.natives == [] && font.fallbackSrcs == []
    else
      && font.id == id && font.src == fonts[id].src && font.natives == fonts[id].natives
      && exists chain :: BreadthFirst(fonts, id, chain) && SourcesAre(fonts, chain, font.fallbackSrcs)
  }

  lemma FontForIs(fonts: Fonts, requested: string)
    ensures IsFont(fonts, requested, FontFor(fonts, requested))
  {
    hide Visit, Reaches, Reachable, Within, Chain, Mentions, FirstMentions;
    var id := if requested == "" then "default" else requested;
    if id in fonts {
      ChainIsBreadthFirst(fonts, id);
      ChainInMentionOrder(fonts, id);
      ChainRegistered(fonts, id);
      assert BreadthFirst(fonts, id, Chain(fonts, id));
      assert SourcesAre(fonts, Chain(fonts, id), FontFor(fonts, requested).fallbackSrcs);
    }
  }

  lemma SourcesOneMore(fonts: Fonts, chain: seq<string>, id: string)
    requires id in fonts && forall i :: 0 <= i < |chain| ==> chain[i] in fonts
    ensures Sources(fonts, chain + [id]) == Sources(fonts, chain) + [fonts[id].src]
  {
  }

  predicate AllIn(fonts: Fonts, chain: seq<string>) {
    forall i :: 0 <= i < |chain| ==> chain[i] in fonts
  }

  /** The worklist loop: pops the front, skips what it has seen or cannot find, appends nested fallbacks. */
  method Search(fonts: Fonts, id: string) returns (srcs: seq<string>)
    requires id in fonts
    ensures AllIn(fonts, Chain(fonts, id)) && srcs == Sources(fonts, Chain(fonts, id))
  {
    hide Visit, Onward, Left, AllMentioned, Sources;
    OnwardMentioned(fonts, id);
    OnwardIs(fonts, id);
    ghost var chain: seq<string> := [];
    srcs := [];
    NoSources(fonts);
    var visited: set<string> := {};
    var pending := fonts[id].fallbacks;
    while pending != []
      invariant AllMentioned(fonts, pending)
      invariant chain + Visit(fonts, pending, visited) == Chain(fonts, id)
      invariant AllIn(fonts, chain) && srcs == Sources(fonts, chain)
      decreases Left(fonts, visited), |pending|
    {
      VisitStep(fonts, pending, visited);
      var current := pending[0];
      OnwardIs(fonts, current);
      pending := pending[1..];
      if current in visited {
        continue;
      }
      visited := visited + {current};
      if current in fonts {
        SourcesOneMore(fonts, chain, current);
        pending := pending + fonts[current].fallbacks;
        assert chain + ([current] + Visit(fonts, pending, visited)) == chain + [current]
               + Visit(fonts, pending, visited);
        chain := chain + [current];
        srcs := srcs + [fonts[current].src];
      } else {
        assert pending + [] == pending && [] + Visit(fonts, pending, visited) == Visit(fonts, pending, visited);
      }
    }
    VisitNothing(fonts, visited);
    assert chain == Chain(fonts, id);
  }

  lemma NoSources(fonts: Fonts)
    ensures Sources(fonts, []) == []
  {
  }

  method ResolveFontChain(fonts: Fonts, requested: string) returns (font: ResolvedFont)
    ensures font == FontFor(fonts, requested) && IsFont(fonts, requested, font)
  {
    hide Chain, IsFont;
    FontForIs(fonts, requested);
    var id := if requested == "" then "default" else requested;
    if id !in fonts {
      return NO_FONT;
    }
    var srcs := Search(fonts, id);
    font := ResolvedFont(id, fonts[id].src, fonts[id].natives, srcs);
  }

  lemma OnwardIs(fonts: Fonts, id: string)
    ensures Onward(fonts, id) == if id in fonts then fonts[id].fallbacks else []
  {
  }
}
