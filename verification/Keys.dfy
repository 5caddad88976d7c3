/** Table keys that start with a decimal document id, and the prefixes that select one document's entries. */
module Keys {

  function Digit(d: nat): (c: char)
    requires d < 10
    ensures '0' <= c <= '9'
  {
    "0123456789"[d]
  }

  lemma DigitInjective(a: nat, b: nat)
    requires a < 10 && b < 10
    ensures Digit(a) == Digit(b) <==> a == b
  {
  }

  /** The decimal rendering of a document id. */
  function Decimal(n: nat): (s: string)
    ensures s != "" && forall i :: 0 <= i < |s| ==> '0' <= s[i] <= '9'
  {
    if n < 10 then [Digit(n)] else Decimal(n / 10) + [Digit(n % 10)]
  }

  lemma {:induction false} DecimalInjective(a: nat, b: nat)
    ensures Decimal(a) == Decimal(b) ==> a == b
  {
    var s, t := Decimal(a), Decimal(b);
    if s == t {
      assert s[|s| - 1] == Digit(a % 10) && t[|t| - 1] == Digit(b % 10);
      DigitInjective(a % 10, b % 10);
      if a >= 10 && b >= 10 {
        assert s[..|s| - 1] == Decimal(a / 10) && t[..|t| - 1] == Decimal(b / 10);
        DecimalInjective(a / 10, b / 10);
      }
    }
  }

  /** An id rendered in front of a mark that is not a digit: no key can start with two of these. */
  lemma OneOwner(head: string, mark: char, a: nat, b: nat, key: string)
    requires !('0' <= mark <= '9')
    requires head + Decimal(a) + [mark] <= key && head + Decimal(b) + [mark] <= key
    ensures a == b
  {
    NoLaterMark(head, mark, a, b, key);
    NoLaterMark(head, mark, b, a, key);
    assert Decimal(a) == key[|head|..|head| + |Decimal(a)|];
    assert Decimal(b) == key[|head|..|head| + |Decimal(b)|];
    DecimalInjective(a, b);
  }

  lemma NoLaterMark(head: string, mark: char, a: nat, b: nat, key: string)
    requires !('0' <= mark <= '9')
    requires head + Decimal(a) + [mark] <= key && head + Decimal(b) + [mark] <= key
    ensures |Decimal(b)| <= |Decimal(a)|
  {
    var p, q := head + Decimal(a) + [mark], head + Decimal(b) + [mark];
    var at := |head| + |Decimal(a)|;
    assert key[at] == p[at] == mark;
    assert forall i :: |head| <= i < |head| + |Decimal(b)| ==> key[i] == q[i] == Decimal(b)[i - |head|];
  }

  // ---- Store keys: doc:N|path:P|key:K ----

  const KEY_MARK := "|key:"

  function DocumentPrefix(document: nat): string {
    "doc:" + Decimal(document) + "|"
  }

  function ScopedKey(document: nat, path: string, key: string): string {
    "doc:" + Decimal(document) + "|path:" + path + KEY_MARK + key
  }

  predicate OwnedBy(storeKey: string, document: nat) {
    DocumentPrefix(document) <= storeKey
  }

  /** Forgetting a document selects its own scoped keys and nobody else's. */
  lemma ScopedKeyOwner(document: nat, other: nat, path: string, key: string)
    ensures OwnedBy(ScopedKey(other, path, key), document) <==> document == other
  {
    var k := ScopedKey(other, path, key);
    assert k == DocumentPrefix(other) + ("path:" + path + KEY_MARK + key);
    if OwnedBy(k, document) {
      OneOwner("doc:", '|', document, other, k);
    }
  }

  lemma OneDocument(storeKey: string, a: nat, b: nat)
    requires OwnedBy(storeKey, a) && OwnedBy(storeKey, b)
    ensures a == b
  {
    OneOwner("doc:", '|', a, b, storeKey);
  }

  /** A plain, unscoped key that happens to start like a scoped one is selected too. */
  lemma PlainKeyTaken()
    ensures OwnedBy("doc:1|volume", 1) && forall path, key :: "doc:1|volume" != ScopedKey(1, path, key)
  {
    assert Decimal(1) == "1";
    assert "doc:1|volume" == DocumentPrefix(1) + "volume";
    forall path, key ensures "doc:1|volume" != ScopedKey(1, path, key) {
      assert ScopedKey(1, path, key)[6] == 'p';
    }
  }

  predicate OccursAt(mark: string, s: string, i: nat) {
    i + |mark| <= |s| && s[i..i + |mark|] == mark
  }

  predicate MarkFree(path: string) {
    forall i :: 0 <= i < |path| ==> !OccursAt(KEY_MARK, path, i)
  }

  /** What follows the document prefix of a scoped key. */
  function Rest(path: string, key: string): string {
    "path:" + path + KEY_MARK + key
  }

  predicate ReadsAsScoped(rest: string) {
    "path:" <= rest && exists i :: 5 <= i <= |rest| && OccursAt(KEY_MARK, rest, i)
  }

  lemma RestReads(rest: string)
    ensures ReadsAsScoped(rest) <==> exists path, key :: rest == Rest(path, key)
  {
    if ReadsAsScoped(rest) {
      var i :| 5 <= i <= |rest| && OccursAt(KEY_MARK, rest, i);
      var path, key := rest[5..i], rest[i + |KEY_MARK|..];
      assert rest == rest[..5] + path + rest[i..i + |KEY_MARK|] + key;
      assert rest == Rest(path, key);
    }
    if path, key :| rest == Rest(path, key) {
      assert rest == "path:" + (path + KEY_MARK + key);
      assert OccursAt(KEY_MARK, rest, 5 + |path|);
    }
  }

  lemma ScopedKeyIs(document: nat, path: string, key: string)
    ensures ScopedKey(document, path, key) == DocumentPrefix(document) + Rest(path, key)
  {
    assert "|path:" == "|" + "path:";
  }

  /**
   * Of the keys that are forgotten with a document, exactly those whose rest reads as a path and a key come from a
   * scoped write; all others are plain keys taken along.
   */
  lemma PlainKeysTaken(rest: string, document: nat)
    ensures OwnedBy(DocumentPrefix(document) + rest, document)
    ensures (exists path, key :: DocumentPrefix(document) + rest == ScopedKey(document, path, key)) <==>
            ReadsAsScoped(rest)
  {
    hide DocumentPrefix, ScopedKey, Rest, ReadsAsScoped;
    RestReads(rest);
    var prefix := DocumentPrefix(document);
    forall path, key ensures prefix + rest == ScopedKey(document, path, key) <==> rest == Rest(path, key) {
      ScopedKeyIs(document, path, key);
      SamePrefix(prefix, rest, Rest(path, key));
    }
  }

  lemma SamePrefix(prefix: string, a: string, b: string)
    ensures prefix + a == prefix + b <==> a == b
  {
    assert (prefix + a)[|prefix|..] == a && (prefix + b)[|prefix|..] == b;
  }

  /** With paths that do not contain the key mark, different (document, path, key) never share a store key. */
  lemma ScopedKeyInjective(d: nat, p: string, k: string, e: nat, q: string, l: string)
    requires MarkFree(p) && MarkFree(q)
    ensures ScopedKey(d, p, k) == ScopedKey(e, q, l) <==> d == e && p == q && k == l
  {
    if ScopedKey(d, p, k) == ScopedKey(e, q, l) {
      ScopedKeyOwner(d, d, p, k);
      ScopedKeyOwner(d, e, q, l);
      ScopedTail(d, p, k, q, l);
      NoShorterPath(p, k, q, l);
      NoShorterPath(q, l, p, k);
      var s := p + KEY_MARK + k;
      assert s[..|p|] == p && s[..|q|] == q;
      assert s[|p| + |KEY_MARK|..] == k && s[|q| + |KEY_MARK|..] == l;
    }
  }

  lemma ScopedTail(d: nat, p: string, k: string, q: string, l: string)
    ensures ScopedKey(d, p, k) == ScopedKey(d, q, l) <==> p + KEY_MARK + k == q + KEY_MARK + l
  {
    var head := "doc:" + Decimal(d) + "|path:";
    var s, t := p + KEY_MARK + k, q + KEY_MARK + l;
    assert ScopedKey(d, p, k) == head + s && ScopedKey(d, q, l) == head + t;
    assert (head + s)[|head|..] == s && (head + t)[|head|..] == t;
  }

  lemma NoShorterPath(p: string, k: string, q: string, l: string)
    requires MarkFree(p) && p + KEY_MARK + k == q + KEY_MARK + l
    ensures |p| <= |q|
  {
    var s := p + KEY_MARK + k;
    assert s[|p|] == '|';
    if |q| < |p| {
      var at := |q|;
      assert forall j :: 0 <= j < 5 ==> s[at + j] == KEY_MARK[j];
      if at + 5 <= |p| {
        assert p[at..at + 5] == KEY_MARK;
        assert OccursAt(KEY_MARK, p, at);
      }
    }
  }

  /** A path is mistaken for no shorter one exactly when it does not contain the key mark. */
  lemma ScopedKeyUnambiguous(d: nat, p: string, k: string)
    ensures MarkFree(p) <==> forall q, l :: |q| < |p| ==> ScopedKey(d, p, k) != ScopedKey(d, q, l)
  {
    if MarkFree(p) {
      forall q, l | |q| < |p| ensures ScopedKey(d, p, k) != ScopedKey(d, q, l) {
        ScopedTail(d, p, k, q, l);
        if ScopedKey(d, p, k) == ScopedKey(d, q, l) {
          NoShorterPath(p, k, q, l);
        }
      }
    } else {
      var i :| 0 <= i < |p| && OccursAt(KEY_MARK, p, i);
      var q, l := p[..i], p[i + 5..] + KEY_MARK + k;
      assert p == q + KEY_MARK + p[i + 5..];
      ScopedTail(d, p, k, q, l);
      assert p + KEY_MARK + k == q + KEY_MARK + l;
    }
  }

  // ---- Runtime keys: N<unit separator>rest ----

  const UNIT := 0x1f as char

  function UnitPrefix(document: nat): string {
    Decimal(document) + [UNIT]
  }

  function UnitKey(document: nat, rest: string): string {
    UnitPrefix(document) + rest
  }

  /** The prefix of one document selects exactly that document's keys, and keys name their document and rest. */
  lemma UnitKeyOwner(document: nat, other: nat, rest: string)
    ensures UnitPrefix(document) <= UnitKey(other, rest) <==> document == other
  {
    if UnitPrefix(document) <= UnitKey(other, rest) {
      assert "" + Decimal(document) + [UNIT] == UnitPrefix(document);
      assert "" + Decimal(other) + [UNIT] == UnitPrefix(other);
      OneOwner("", UNIT, document, other, UnitKey(other, rest));
    }
  }

  lemma UnitKeyInjective(d: nat, r: string, e: nat, s: string)
    ensures UnitKey(d, r) == UnitKey(e, s) <==> d == e && r == s
  {
    if UnitKey(d, r) == UnitKey(e, s) {
      UnitKeyOwner(d, e, s);
      assert UnitKey(d, r)[|UnitPrefix(d)|..] == r && UnitKey(e, s)[|UnitPrefix(e)|..] == s;
    }
  }
}
