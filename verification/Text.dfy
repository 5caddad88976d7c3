/** Strings the runtime builds its keys from: slash-separated view paths and decimal document ids. */
module Text {

  predicate NoSlash(s: string) {
    '/' !in s
  }

  /** A view id that can stand as one path segment. */
  predicate Segment(s: string) {
    s != "" && NoSlash(s)
  }

  /** The part of `path` after its last slash; the whole string when there is none. */
  function AfterLastSlash(path: string): (r: string)
    ensures NoSlash(r)
    ensures |r| <= |path| && path[|path| - |r|..] == r
    ensures |r| < |path| ==> path[|path| - |r| - 1] == '/'
  {
    if path == "" || path[|path| - 1] == '/' then ""
    else
      var front := path[..|path| - 1];
      var r := AfterLastSlash(front);
      assert path == front + [path[|path| - 1]];
      r + [path[|path| - 1]]
  }

  lemma LastSegmentUnique(p: string, a: string, q: string, b: string)
    requires NoSlash(a) && NoSlash(b)
    requires p + "/" + a == q + "/" + b
    ensures p == q && a == b
  {
    var s := p + "/" + a;
    LastSegmentNotShorter(s, p, a, q, b);
    LastSegmentNotShorter(s, q, b, p, a);
    assert s[..|p|] == p && s[..|q|] == q;
    assert s[|p| + 1..] == a && s[|q| + 1..] == b;
  }

  lemma LastSegmentNotShorter(s: string, p: string, a: string, q: string, b: string)
    requires s == p + "/" + a && s == q + "/" + b && NoSlash(a)
    ensures |q| <= |p|
  {
    assert s[|q|] == '/';
    forall k | |p| < k < |s| ensures s[k] != '/' {
      assert s[k] == a[k - |p| - 1] && s[k] in a;
    }
  }

  lemma {:induction false} AfterLastSlashAppend(p: string, a: string)
    requires NoSlash(a)
    ensures AfterLastSlash(p + "/" + a) == a
    decreases |a|
  {
    var s := p + "/" + a;
    if a == "" {
      assert s[|s| - 1] == '/';
    } else {
      var b := a[..|a| - 1];
      AfterLastSlashAppend(p, b);
      assert s[..|s| - 1] == p + "/" + b;
      assert a == b + [a[|a| - 1]];
      assert s[|s| - 1] == a[|a| - 1] && a[|a| - 1] in a;
    }
  }

  /** Drops every leading slash. */
  function TrimLeft(s: string): (r: string)
    ensures r == "" || r[0] != '/'
  {
    if s != "" && s[0] == '/' then TrimLeft(s[1..]) else s
  }

  /** Drops every trailing slash. */
  function TrimRight(s: string): (r: string)
    ensures r == "" || r[|r| - 1] != '/'
    ensures |r| <= |s| && r == s[..|r|]
  {
    if s != "" && s[|s| - 1] == '/' then TrimRight(s[..|s| - 1]) else s
  }

  function TrimSlashes(s: string): (r: string)
    ensures r == "" || (r[0] != '/' && r[|r| - 1] != '/')
  {
    TrimRight(TrimLeft(s))
  }

  function NormalizePath(s: string): (r: string)
    ensures r != "" && r[0] == '/'
    ensures |r| > 1 ==> r[1] != '/' && r[|r| - 1] != '/'
  {
    var t := TrimSlashes(s);
    if t == "" then "/" else "/" + t
  }

  /** A path is left alone by normalisation exactly when it is "/" or has one leading slash and no trailing one. */
  lemma NormalizeFixedPoints(s: string)
    ensures NormalizePath(s) == s <==>
            s == "/" || (|s| > 1 && s[0] == '/' && s[1] != '/' && s[|s| - 1] != '/')
    ensures NormalizePath(NormalizePath(s)) == NormalizePath(s)
  {
    assert TrimLeft("") == "" && TrimLeft("/") == "" by { assert "/"[1..] == ""; }
    assert NormalizePath("/") == "/";
    if |s| > 1 && s[0] == '/' && s[1] != '/' && s[|s| - 1] != '/' {
      NormalizeKeeps(s);
    }
    var n := NormalizePath(s);
    if |n| > 1 {
      NormalizeKeeps(n);
    } else {
      assert n == "/";
    }
  }

  /** Normalising drops slashes at both ends, nothing else, and puts one in front. */
  lemma NormalizeStrips(s: string) returns (from: nat, to: nat)
    ensures from <= to <= |s| && NormalizePath(s) == "/" + s[from..to]
    ensures forall i :: 0 <= i < from || to <= i < |s| ==> s[i] == '/'
  {
    from := LeftStripped(s);
    var rest := RightStripped(s[from..]);
    to := from + rest;
    assert s[from..][..rest] == s[from..to];
    assert forall i :: to <= i < |s| ==> s[i] == s[from..][i - from];
    assert "/" + "" == "/";
  }

  lemma {:induction false} LeftStripped(s: string) returns (n: nat)
    ensures n <= |s| && TrimLeft(s) == s[n..] && forall i :: 0 <= i < n ==> s[i] == '/'
    decreases |s|
  {
    n := 0;
    if s != "" && s[0] == '/' {
      var rest := LeftStripped(s[1..]);
      n := rest + 1;
      assert forall i :: 0 < i < n ==> s[i] == s[1..][i - 1];
    }
  }

  lemma {:induction false} RightStripped(s: string) returns (n: nat)
    ensures n <= |s| && TrimRight(s) == s[..n] && forall i :: n <= i < |s| ==> s[i] == '/'
    decreases |s|
  {
    n := |s|;
    if s != "" && s[|s| - 1] == '/' {
      n := RightStripped(s[..|s| - 1]);
      assert s[..|s| - 1][..n] == s[..n];
    }
  }

  /** The shortcut batched updates take: a path that looks normal is looked up as it is. */
  function QueryPath(s: string): string {
    if |s| > 1 && s[0] == '/' && s[|s| - 1] != '/' then s else NormalizePath(s)
  }

  /** The shortcut misses exactly the paths with more than one leading slash and none at the end. */
  lemma QueryIsNormal(s: string)
    ensures QueryPath(s) == NormalizePath(s) <==> !(|s| > 1 && s[0] == '/' && s[1] == '/' && s[|s| - 1] != '/')
  {
    NormalizeFixedPoints(s);
  }

  lemma NormalizeKeeps(s: string)
    requires |s| > 1 && s[0] == '/' && s[1] != '/' && s[|s| - 1] != '/'
    ensures NormalizePath(s) == s
  {
    assert TrimLeft(s) == s[1..];
    assert TrimRight(s[1..]) == s[1..];
    assert s == "/" + s[1..];
  }

  lemma TrimSegment(s: string)
    requires Segment(s)
    ensures TrimSlashes(s) == s
  {
    assert s[0] in s && s[|s| - 1] in s;
  }

  /** Path segments joined with '/', as the stream operator of Path prints them. */
  function JoinSlash(segments: seq<string>): string {
    if segments == [] then ""
    else if |segments| == 1 then segments[0]
    else JoinSlash(segments[..|segments| - 1]) + "/" + segments[|segments| - 1]
  }

  predicate AllNonEmpty(segments: seq<string>) {
    forall i :: 0 <= i < |segments| ==> segments[i] != ""
  }

  function AbsoluteNodePath(rootId: string, path: seq<string>): string {
    var relative := JoinSlash(path);
    if relative == "" then "/" + rootId else "/" + rootId + "/" + relative
  }

  lemma AbsoluteNodePathOfRoot(rootId: string)
    ensures AbsoluteNodePath(rootId, []) == "/" + rootId
  {
    assert JoinSlash([]) == "";
  }

  lemma AbsoluteNodePathAppend(rootId: string, path: seq<string>, id: string)
    requires AllNonEmpty(path) && id != ""
    ensures AbsoluteNodePath(rootId, path + [id]) == AbsoluteNodePath(rootId, path) + "/" + id
  {
    assert (path + [id])[..|path|] == path;
    assert path != [] ==> JoinSlash(path) != "";
    var head, rest := "/" + rootId + "/", "/" + id;
    if path != [] {
      assert JoinSlash(path + [id]) == JoinSlash(path) + rest;
      assert head + (JoinSlash(path) + rest) == (head + JoinSlash(path)) + rest;
    }
  }

  /** Lexicographic order on strings by character code. */
  predicate StringLess(a: string, b: string) {
    b != "" && (a == "" || a[0] < b[0] || (a[0] == b[0] && StringLess(a[1..], b[1..])))
  }

  lemma StringLessOrder(a: string, b: string, c: string)
    ensures !StringLess(a, a)
    ensures StringLess(a, b) && StringLess(b, c) ==> StringLess(a, c)
    ensures a == b || StringLess(a, b) || StringLess(b, a)
  {
    if a != "" && b != "" {
      assert a == [a[0]] + a[1..] && b == [b[0]] + b[1..];
      StringLessOrder(a[1..], b[1..], if c != "" then c[1..] else "");
    } else if a != "" {
      StringLessOrder(a[1..], "", "");
    }
  }
}
