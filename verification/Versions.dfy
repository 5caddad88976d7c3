/** Dotted version comparison with saturating segments, and pagination of the store's list. */
module Versions {
  import Keys
  import opened Segments
  import Text

  const MAX: nat := 0xFFFF_FFFF_FFFF_FFFF

  predicate IsDigit(c: char) {
    '0' <= c <= '9'
  }

  predicate AllDigits(s: string) {
    forall i :: 0 <= i < |s| ==> IsDigit(s[i])
  }

  predicate IsDecimal(s: string) {
    s != "" && AllDigits(s)
  }

  function DigitValue(c: char): nat
    requires IsDigit(c)
  {
    c as nat - '0' as nat
  }

  /** The number a digit string denotes, without bound. */
  function Value(s: string): nat
    requires AllDigits(s)
  {
    if s == "" then 0 else 10 * Value(s[..|s| - 1]) + DigitValue(s[|s| - 1])
  }

  function Min(a: nat, b: nat): nat {
    if a <= b then a else b
  }

  function Saturated(s: string): nat
    requires AllDigits(s)
  {
    Min(Value(s), MAX)
  }

  /** A segment that is the decimal form of a number counts as this number, and as MAX when it is larger. */
  lemma {:induction false} SaturatedExactly(n: nat)
    ensures AllDigits(Keys.Decimal(n)) && Value(Keys.Decimal(n)) == n
    ensures Saturated(Keys.Decimal(n)) == if n <= MAX then n else MAX
    decreases n
  {
    var s := Keys.Decimal(n);
    DigitIs(n % 10);
    hide Keys.Digit;
    if n < 10 {
      assert s[..|s| - 1] == "" && s[|s| - 1] == Keys.Digit(n);
    } else {
      SaturatedExactly(n / 10);
      assert s[..|s| - 1] == Keys.Decimal(n / 10) && s[|s| - 1] == Keys.Digit(n % 10);
    }
  }

  lemma DigitIs(d: nat)
    requires d < 10
    ensures DigitValue(Keys.Digit(d)) == d
  {
  }

  lemma {:induction false} ValueGrows(s: string, n: nat)
    requires AllDigits(s) && n <= |s|
    ensures Value(s[..n]) <= Value(s)
    decreases |s| - n
  {
    if n < |s| {
      assert s[..n + 1][..n] == s[..n];
      ValueGrows(s, n + 1);
    } else {
      assert s[..n] == s;
    }
  }

  /** Digit by digit in 64 bits; once a step would overflow the result is the largest value. */
  method ParseDecimalSegment(s: string) returns (result: nat)
    requires AllDigits(s)
    ensures result == Saturated(s)
  {
    result := 0;
    assert s[..0] == "";
    for i := 0 to |s|
      invariant result == Value(s[..i]) && result <= MAX
    {
      var digit := DigitValue(s[i]);
      assert s[..i + 1][..i] == s[..i];
      if result > (MAX - digit) / 10 {
        ValueGrows(s, i + 1);
        return MAX;
      }
      result := result * 10 + digit;
    }
    assert s[..|s|] == s;
  }

  /** Cuts at every dot; joining the segments with dots gives the version back. */
  method SplitVersion(version: string) returns (segments: seq<string>)
    ensures segments == Split(version, '.')
    ensures Join(segments, '.') == version && AllFree(segments, '.')
  {
    JoinSplit(version, '.');
    hide Split, Join;
    segments := [];
    var start := 0;
    assert version[0..] == version;
    while start <= |version|
      invariant start <= |version| && segments + Split(version[start..], '.') == Split(version, '.')
      decreases |version| - start
    {
      var end := FindMark(version, start, '.');
      var rest := version[start..];
      assert rest[..end - start] == version[start..end];
      SplitAtMark(rest, '.', end - start);
      if end == |version| {
        segments := segments + [version[start..]];
        break;
      }
      assert rest[end - start + 1..] == version[end + 1..];
      segments := segments + [version[start..end]];
      start := end + 1;
    }
  }

  // ---- Comparison ----

  function Segment(segments: seq<string>, i: nat): string {
    if i < |segments| then segments[i] else "0"
  }

  function CompareSegments(a: string, b: string): int {
    if IsDecimal(a) && IsDecimal(b) then
      if Saturated(a) < Saturated(b) then -1 else if Saturated(a) == Saturated(b) then 0 else 1
    else if a == b then 0 else if Text.StringLess(a, b) then -1 else 1
  }

  function CompareFrom(a: seq<string>, b: seq<string>, i: nat): int
    decreases (if |a| >= |b| then |a| else |b|) - i
  {
    if i >= |a| && i >= |b| then 0
    else
      var c := CompareSegments(Segment(a, i), Segment(b, i));
      if c != 0 then c else CompareFrom(a, b, i + 1)
  }

  function Compare(a: string, b: string): int {
    if a == b || a == "" || b == "" then 0 else CompareFrom(Split(a, '.'), Split(b, '.'), 0)
  }

  method CompareVersions(lhs: string, rhs: string) returns (r: int)
    ensures r == Compare(lhs, rhs)
  {
    hide Split;
    if lhs == rhs || lhs == "" || rhs == "" {
      return 0;
    }
    var a := SplitVersion(lhs);
    var b := SplitVersion(rhs);
    var count := if |a| >= |b| then |a| else |b|;
    for i := 0 to count
      invariant CompareFrom(a, b, i) == CompareFrom(a, b, 0)
    {
      var x := if i < |a| then a[i] else "0";
      var y := if i < |b| then b[i] else "0";
      if IsDecimal(x) && IsDecimal(y) {
        var m := ParseDecimalSegment(x);
        var n := ParseDecimalSegment(y);
        if m != n {
          return if m < n then -1 else 1;
        }
        continue;
      }
      if x != y {
        return if Text.StringLess(x, y) then -1 else 1;
      }
    }
    r := 0;
  }

  lemma SegmentsAntisymmetric(a: string, b: string)
    ensures CompareSegments(a, b) == -CompareSegments(b, a)
  {
    Text.StringLessOrder(a, b, a);
    Text.StringLessOrder(b, a, b);
  }

  lemma {:induction false} FromAntisymmetric(a: seq<string>, b: seq<string>, i: nat)
    ensures CompareFrom(a, b, i) == -CompareFrom(b, a, i)
    decreases (if |a| >= |b| then |a| else |b|) - i
  {
    hide CompareSegments;
    if i < |a| || i < |b| {
      SegmentsAntisymmetric(Segment(a, i), Segment(b, i));
      FromAntisymmetric(a, b, i + 1);
    }
  }

  /** Swapping the versions turns the answer round, on all inputs. */
  lemma CompareAntisymmetric(a: string, b: string)
    ensures Compare(a, b) == -Compare(b, a)
  {
    hide CompareFrom, Split;
    FromAntisymmetric(Split(a, '.'), Split(b, '.'), 0);
  }

  // ---- All-decimal versions ----

  predicate DecimalParts(parts: seq<string>) {
    forall i :: 0 <= i < |parts| ==> IsDecimal(parts[i])
  }

  /** Every segment is a decimal number; such a version is never empty. */
  predicate DecimalVersion(version: string) {
    DecimalParts(Split(version, '.'))
  }

  /** The i-th number of a version, zero beyond the last one. */
  function Number(parts: seq<string>, i: nat): nat
    requires DecimalParts(parts)
  {
    if i < |parts| then Saturated(parts[i]) else 0
  }

  lemma SegmentIsNumber(parts: seq<string>, i: nat)
    requires DecimalParts(parts)
    ensures IsDecimal(Segment(parts, i)) && Saturated(Segment(parts, i)) == Number(parts, i)
  {
    assert "0"[..0] == "" && Value("0") == 0;
  }

  /** `a` comes first: at some position its number is smaller and all earlier numbers agree. */
  ghost predicate ComesBefore(a: seq<string>, b: seq<string>, i: nat)
    requires DecimalParts(a) && DecimalParts(b)
  {
    exists k: nat :: i <= k && Number(a, k) < Number(b, k)
      && forall j: nat :: i <= j < k ==> Number(a, j) == Number(b, j)
  }

  lemma {:induction false} CompareFromIsLexicographic(a: seq<string>, b: seq<string>, i: nat)
    requires DecimalParts(a) && DecimalParts(b)
    ensures CompareFrom(a, b, i) < 0 <==> ComesBefore(a, b, i)
    ensures CompareFrom(a, b, i) > 0 <==> ComesBefore(b, a, i)
    ensures CompareFrom(a, b, i) == 0 <==> forall k: nat :: i <= k ==> Number(a, k) == Number(b, k)
    decreases (if |a| >= |b| then |a| else |b|) - i
  {
    hide Saturated, Segment;
    if i < |a| || i < |b| {
      SegmentIsNumber(a, i);
      SegmentIsNumber(b, i);
      CompareFromIsLexicographic(a, b, i + 1);
      var c := CompareSegments(Segment(a, i), Segment(b, i));
      if c == 0 {
        BeforeStep(a, b, i);
        BeforeStep(b, a, i);
      } else {
        BeforeHere(a, b, i);
      }
    }
  }

  lemma BeforeStep(a: seq<string>, b: seq<string>, i: nat)
    requires DecimalParts(a) && DecimalParts(b) && Number(a, i) == Number(b, i)
    ensures ComesBefore(a, b, i) <==> ComesBefore(a, b, i + 1)
  {
    hide Number;
    if ComesBefore(a, b, i) {
      var k: nat :| i <= k && Number(a, k) < Number(b, k)
        && forall j: nat :: i <= j < k ==> Number(a, j) == Number(b, j);
      assert i + 1 <= k;
    }
    if ComesBefore(a, b, i + 1) {
      var k: nat :| i + 1 <= k && Number(a, k) < Number(b, k)
        && forall j: nat :: i + 1 <= j < k ==> Number(a, j) == Number(b, j);
      assert forall j: nat :: i <= j < k ==> Number(a, j) == Number(b, j);
    }
  }

  lemma BeforeHere(a: seq<string>, b: seq<string>, i: nat)
    requires DecimalParts(a) && DecimalParts(b)
    ensures Number(a, i) < Number(b, i) ==> ComesBefore(a, b, i) && !ComesBefore(b, a, i)
    ensures Number(b, i) < Number(a, i) ==> ComesBefore(b, a, i) && !ComesBefore(a, b, i)
  {
    hide Number;
    if ComesBefore(a, b, i) {
      var k: nat :| i <= k && Number(a, k) < Number(b, k)
        && forall j: nat :: i <= j < k ==> Number(a, j) == Number(b, j);
      assert i < k ==> Number(a, i) == Number(b, i);
    }
    if ComesBefore(b, a, i) {
      var k: nat :| i <= k && Number(b, k) < Number(a, k)
        && forall j: nat :: i <= j < k ==> Number(b, j) == Number(a, j);
      assert i < k ==> Number(a, i) == Number(b, i);
    }
  }

  /** On all-decimal versions comparing is lexicographic comparison of the zero-extended saturated numbers. */
  lemma CompareIsLexicographic(a: string, b: string)
    requires DecimalVersion(a) && DecimalVersion(b)
    ensures var x, y := Split(a, '.'), Split(b, '.');
            && (Compare(a, b) < 0 <==> ComesBefore(x, y, 0))
            && (Compare(a, b) == 0 <==> forall k: nat :: Number(x, k) == Number(y, k))
  {
    hide CompareFrom, Number;
    CompareFromIsLexicographic(Split(a, '.'), Split(b, '.'), 0);
    NotEmpty(a);
    NotEmpty(b);
  }

  lemma NotEmpty(version: string)
    requires DecimalVersion(version)
    ensures version != ""
  {
    assert IsDecimal(Split(version, '.')[0]);
  }

  /** There a total preorder: transitive, with strictness carried through. */
  lemma CompareTransitive(a: string, b: string, c: string)
    requires DecimalVersion(a) && DecimalVersion(b) && DecimalVersion(c)
    requires Compare(a, b) <= 0 && Compare(b, c) <= 0
    ensures Compare(a, c) <= 0
    ensures Compare(a, b) < 0 || Compare(b, c) < 0 ==> Compare(a, c) < 0
  {
    hide Compare, Number, DecimalParts;
    CompareIsLexicographic(a, b);
    CompareIsLexicographic(b, c);
    CompareIsLexicographic(a, c);
    var x, y, z := Split(a, '.'), Split(b, '.'), Split(c, '.');
    if Compare(a, b) < 0 || Compare(b, c) < 0 {
      BeforeTransitive(x, y, z);
    }
  }

  lemma BeforeTransitive(x: seq<string>, y: seq<string>, z: seq<string>)
    requires DecimalParts(x) && DecimalParts(y) && DecimalParts(z)
    requires ComesBefore(x, y, 0) || (forall k: nat :: Number(x, k) == Number(y, k))
    requires ComesBefore(y, z, 0) || (forall k: nat :: Number(y, k) == Number(z, k))
    requires ComesBefore(x, y, 0) || ComesBefore(y, z, 0)
    ensures ComesBefore(x, z, 0)
  {
    hide Number;
    if ComesBefore(x, y, 0) && ComesBefore(y, z, 0) {
      var k: nat :| Number(x, k) < Number(y, k) && forall j: nat :: 0 <= j < k ==> Number(x, j) == Number(y, j);
      var m: nat :| Number(y, m) < Number(z, m) && forall j: nat :: 0 <= j < m ==> Number(y, j) == Number(z, j);
      var n := if k <= m then k else m;
      assert Number(x, n) < Number(z, n);
      assert forall j: nat :: 0 <= j < n ==> Number(x, j) == Number(z, j);
    } else if ComesBefore(x, y, 0) {
      var k: nat :| Number(x, k) < Number(y, k) && forall j: nat :: 0 <= j < k ==> Number(x, j) == Number(y, j);
      assert Number(x, k) < Number(z, k) && forall j: nat :: 0 <= j < k ==> Number(x, j) == Number(z, j);
    } else {
      var k: nat :| Number(y, k) < Number(z, k) && forall j: nat :: 0 <= j < k ==> Number(y, j) == Number(z, j);
      assert Number(x, k) < Number(z, k) && forall j: nat :: 0 <= j < k ==> Number(x, j) == Number(z, j);
    }
  }

  /** Mixed segments break it: "9" is below "10", "10" below "1a", and "1a" below "9". */
  lemma MixedVersionsCycle()
    ensures Compare("9", "10") < 0 && Compare("10", "1a") < 0 && Compare("1a", "9") < 0
  {
    OneSegment("9");
    OneSegment("10");
    OneSegment("1a");
    hide Split;
    assert "10"[..1] == "1" && "1"[..0] == "" && Value("1") == 1 && Value("10") == 10;
    assert "9"[..0] == "" && Value("9") == 9;
    assert "10"[1..] == "0" && "1a"[1..] == "a" && Text.StringLess("0", "a");
    assert !IsDecimal("1a") by { assert !IsDigit("1a"[1]); }
    assert CompareSegments("9", "10") == -1 && CompareSegments("10", "1a") == -1 && CompareSegments("1a", "9") == -1;
    assert CompareFrom(["9"], ["10"], 0) == -1;
    assert CompareFrom(["10"], ["1a"], 0) == -1;
    assert CompareFrom(["1a"], ["9"], 0) == -1;
  }

  // ---- Exactly when comparing is transitive ----

  predicate Chain(a: string, b: string, c: string) {
    Compare(a, b) <= 0 && Compare(b, c) <= 0 ==> Compare(a, c) <= 0
  }

  /** On these three versions the comparison is transitive, whichever way they are arranged. */
  predicate TransitiveOn(a: string, b: string, c: string) {
    Chain(a, b, c) && Chain(c, b, a) && Chain(a, c, b) && Chain(b, c, a) && Chain(b, a, c) && Chain(c, a, b)
  }

  /** Read as text, `middle` lies between two decimal segments without being one itself. */
  predicate Between(low: string, middle: string, high: string) {
    IsDecimal(low) && IsDecimal(high) && !IsDecimal(middle) && Text.StringLess(low, middle) &&
        Text.StringLess(middle, high)
  }

  function Longest(a: seq<string>, b: seq<string>, c: seq<string>): nat {
    if |a| >= |b| && |a| >= |c| then |a| else if |b| >= |c| then |b| else |c|
  }

  /** A segment in between says that the version with the smaller text is the lower one. */
  predicate Sided(a: seq<string>, b: seq<string>, c: seq<string>, i: nat) {
    Between(Segment(a, i), Segment(b, i), Segment(c, i)) ==> CompareFrom(a, c, i) < 0
  }

  /**
   * At the first position where the three versions are not all equal, no segment that is not a decimal lies between two
   * decimal ones in text but not in order.
   */
  predicate Orderly(a: seq<string>, b: seq<string>, c: seq<string>, i: nat)
    decreases Longest(a, b, c) - i
  {
    if i >= Longest(a, b, c) then true
    else if
      && CompareSegments(Segment(a, i), Segment(b, i)) == 0
      && CompareSegments(Segment(b, i), Segment(c, i)) == 0
      && CompareSegments(Segment(a, i), Segment(c, i)) == 0
    then Orderly(a, b, c, i + 1)
    else
      && Sided(a, b, c, i) && Sided(c, b, a, i) && Sided(a, c, b, i)
      && Sided(b, c, a, i) && Sided(b, a, c, i) && Sided(c, a, b, i)
  }

  /** The six ways to chain three answers: `ab`, `bc` and `ac` compare the first with the second, and so on. */
  predicate Chained(ab: int, bc: int, ac: int) {
    && (ab <= 0 && bc <= 0 ==> ac <= 0) && (bc >= 0 && ab >= 0 ==> ac >= 0)
    && (ac <= 0 && bc >= 0 ==> ab <= 0) && (bc <= 0 && ac >= 0 ==> ab >= 0)
    && (ab >= 0 && ac <= 0 ==> bc <= 0) && (ac >= 0 && ab <= 0 ==> bc >= 0)
  }

  lemma CompareStep(a: seq<string>, b: seq<string>, i: nat)
    ensures var s := CompareSegments(Segment(a, i), Segment(b, i));
            CompareFrom(a, b, i) == if s != 0 then s else CompareFrom(a, b, i + 1)
  {
    if i >= |a| && i >= |b| {
      assert Segment(a, i) == Segment(b, i);
      assert CompareFrom(a, b, i) == 0 && CompareFrom(a, b, i + 1) == 0;
    } else {
      hide CompareSegments, Segment;
    }
  }

  /** Three segments that are not all equal: a textual detour is the only thing that can break the chains. */
  lemma OneSegmentDecides(x: string, y: string, z: string, ab: int, bc: int, ac: int)
    requires var xy := CompareSegments(x, y); if xy != 0 then ab == xy else true
    requires var yz := CompareSegments(y, z); if yz != 0 then bc == yz else true
    requires var xz := CompareSegments(x, z); if xz != 0 then ac == xz else true
    requires CompareSegments(x, y) != 0 || CompareSegments(y, z) != 0 || CompareSegments(x, z) != 0
    ensures Chained(ab, bc, ac) <==>
            && (Between(x, y, z) ==> ac < 0) && (Between(z, y, x) ==> ac > 0)
            && (Between(x, z, y) ==> ab < 0) && (Between(y, z, x) ==> ab > 0)
            && (Between(y, x, z) ==> bc < 0) && (Between(z, x, y) ==> bc > 0)
  {
    hide Saturated, IsDecimal, AllDigits;
    TextOrder(x, y, z);
    TextOrder(y, x, z);
    TextOrder(x, z, y);
    TextOrder(y, z, x);
    hide Text.StringLess;
  }

  lemma TextOrder(x: string, y: string, z: string)
    ensures x == y || Text.StringLess(x, y) || Text.StringLess(y, x)
    ensures !(Text.StringLess(x, y) && Text.StringLess(y, x)) && !Text.StringLess(x, x)
    ensures Text.StringLess(x, y) && Text.StringLess(y, z) ==> Text.StringLess(x, z)
    ensures Text.StringLess(z, y) && Text.StringLess(y, x) ==> Text.StringLess(z, x)
  {
    Text.StringLessOrder(x, y, z);
    Text.StringLessOrder(x, y, x);
    Text.StringLessOrder(z, y, x);
  }

  lemma {:induction false} OrderlyIsChained(a: seq<string>, b: seq<string>, c: seq<string>, i: nat)
    ensures Orderly(a, b, c, i) <==> Chained(CompareFrom(a, b, i), CompareFrom(b, c, i), CompareFrom(a, c, i))
    decreases Longest(a, b, c) - i
  {
    hide CompareSegments, Segment, Between;
    FromAntisymmetric(a, b, i);
    FromAntisymmetric(b, c, i);
    FromAntisymmetric(a, c, i);
    if i < Longest(a, b, c) {
      CompareStep(a, b, i);
      CompareStep(b, c, i);
      CompareStep(a, c, i);
      var x, y, z := Segment(a, i), Segment(b, i), Segment(c, i);
      if CompareSegments(x, y) == 0 && CompareSegments(y, z) == 0 && CompareSegments(x, z) == 0 {
        OrderlyIsChained(a, b, c, i + 1);
      } else {
        OneSegmentDecides(x, y, z, CompareFrom(a, b, i), CompareFrom(b, c, i), CompareFrom(a, c, i));
      }
    }
  }

  lemma {:induction false} CompareSelf(a: seq<string>, i: nat)
    ensures CompareFrom(a, a, i) == 0
  {
    FromAntisymmetric(a, a, i);
  }

  lemma CompareIsFrom(a: string, b: string)
    requires a != "" && b != ""
    ensures Compare(a, b) == CompareFrom(Split(a, '.'), Split(b, '.'), 0)
  {
    hide CompareFrom, Split;
    CompareSelf(Split(a, '.'), 0);
  }

  /**
   * Comparing three versions is transitive exactly when they are orderly; an empty one forces the others to be equal.
   */
  lemma TransitiveExactly(a: string, b: string, c: string)
    ensures TransitiveOn(a, b, c) <==>
            if a == "" then Compare(b, c) == 0
            else if b == "" then Compare(a, c) == 0
            else if c == "" then Compare(a, b) == 0
            else Orderly(Split(a, '.'), Split(b, '.'), Split(c, '.'), 0)
  {
    hide Compare, CompareFrom, Orderly, Split;
    CompareAntisymmetric(a, b);
    CompareAntisymmetric(b, c);
    CompareAntisymmetric(a, c);
    if a == "" || b == "" || c == "" {
      EmptyEqualsAll(a);
      EmptyEqualsAll(b);
      EmptyEqualsAll(c);
    } else {
      OrderlyIsChained(Split(a, '.'), Split(b, '.'), Split(c, '.'), 0);
      CompareIsFrom(a, b);
      CompareIsFrom(b, c);
      CompareIsFrom(a, c);
    }
  }

  // ---- Which segments are safe to use ----

  /** Wherever a segment that is not a decimal lies between two decimals in text, the decimals have that order. */
  predicate Safe(segments: set<string>) {
    forall low, middle, high ::
      low in segments && middle in segments && high in segments && Between(low, middle, high)
      ==> Saturated(low) < Saturated(high)
  }

  predicate MadeOf(version: string, segments: set<string>) {
    version != "" && forall i :: 0 <= i < |Split(version, '.')| ==> Split(version, '.')[i] in segments
  }

  lemma {:induction false} SafeIsOrderly(segments: set<string>, a: seq<string>, b: seq<string>, c: seq<string>, i: nat)
    requires Safe(segments) && "0" in segments
    requires forall k :: 0 <= k < |a| ==> a[k] in segments
    requires forall k :: 0 <= k < |b| ==> b[k] in segments
    requires forall k :: 0 <= k < |c| ==> c[k] in segments
    ensures Orderly(a, b, c, i)
    decreases Longest(a, b, c) - i
  {
    hide Saturated, Text.StringLess, AllDigits;
    if i < Longest(a, b, c) {
      CompareStep(a, b, i);
      CompareStep(b, c, i);
      CompareStep(a, c, i);
      FromAntisymmetric(a, b, i);
      FromAntisymmetric(b, c, i);
      FromAntisymmetric(a, c, i);
      SafeIsOrderly(segments, a, b, c, i + 1);
    }
  }

  /** Comparing is transitive on all versions made of a set of segments exactly when the set is safe. */
  lemma SafeExactly(segments: set<string>)
    requires "0" in segments && forall s :: s in segments ==> Free(s, '.')
    ensures (forall a, b, c :: MadeOf(a, segments) && MadeOf(b, segments) && MadeOf(c, segments) ==>
      TransitiveOn(a, b, c))
            <==> Safe(segments)
  {
    hide Compare, CompareFrom, Orderly, Split, Between, Saturated, TransitiveOn;
    if Safe(segments) {
      forall a, b, c | MadeOf(a, segments) && MadeOf(b, segments) && MadeOf(c, segments) ensures TransitiveOn(a, b, c) {
        SafeIsOrderly(segments, Split(a, '.'), Split(b, '.'), Split(c, '.'), 0);
        TransitiveExactly(a, b, c);
      }
    }
    if forall a, b, c :: MadeOf(a, segments) && MadeOf(b, segments) && MadeOf(c, segments) ==> TransitiveOn(a, b, c) {
      forall low, middle, high | low in segments && middle in segments && high in segments && Between(low, middle, high)
        ensures IsDecimal(low) && IsDecimal(high) && Saturated(low) < Saturated(high)
      {
        BetweenNonEmpty(low, middle, high);
        OneSegment(low);
        OneSegment(middle);
        OneSegment(high);
        assert TransitiveOn(low, middle, high);
        UnsafeBreaks(low, middle, high);
      }
    }
  }

  lemma BetweenNonEmpty(low: string, middle: string, high: string)
    requires Between(low, middle, high)
    ensures low != "" && middle != "" && high != ""
  {
  }

  /** Three one-segment versions show an unsafe set. */
  lemma UnsafeBreaks(low: string, middle: string, high: string)
    requires Between(low, middle, high) && TransitiveOn(low, middle, high)
    requires Split(low, '.') == [low] && Split(middle, '.') == [middle] && Split(high, '.') == [high]
    ensures IsDecimal(low) && IsDecimal(high) && Saturated(low) < Saturated(high)
  {
    hide Split, Saturated, AllDigits;
    TextOrder(low, middle, high);
    BetweenNonEmpty(low, middle, high);
    SingleCompare(low, middle);
    SingleCompare(middle, high);
    SingleCompare(low, high);
    CompareAntisymmetric(low, middle);
    CompareAntisymmetric(middle, high);
    CompareAntisymmetric(low, high);
    hide Compare, Text.StringLess;
  }

  lemma SingleCompare(a: string, b: string)
    requires Split(a, '.') == [a] && Split(b, '.') == [b] && a != "" && b != ""
    ensures Compare(a, b) == CompareSegments(a, b)
  {
    hide Split, CompareSegments;
    CompareIsFrom(a, b);
    assert CompareFrom([a], [b], 1) == 0;
  }

  lemma OneSegment(s: string)
    requires Free(s, '.')
    ensures Split(s, '.') == [s]
  {
    assert s[..|s|] == s;
    SplitAtMark(s, '.', |s|);
  }

  /** An empty version counts as equal to every other. */
  lemma EmptyEqualsAll(version: string)
    ensures Compare("", version) == 0 && Compare(version, "") == 0
  {
  }

  // ---- Pagination ----

  /** Unsigned size arithmetic of width 2^bits. */
  function PageCount(total: nat, pageSize: nat, wrap: nat): nat
    requires 0 < pageSize < wrap
  {
    if total == 0 then 1 else ((total + pageSize - 1) % wrap) / pageSize
  }

  function PageStart(page: nat, pageSize: nat, wrap: nat): nat
    requires 0 < wrap
  {
    (page * pageSize) % wrap
  }

  function VisibleCount(total: nat, page: nat, pageSize: nat, wrap: nat): nat
    requires 0 < pageSize < wrap
  {
    var start := PageStart(page, pageSize, wrap);
    if start >= total then 0 else Min(pageSize, total - start)
  }

  lemma RowsApart(a: nat, b: nat, size: nat)
    requires a < b
    ensures a * size + size <= b * size
  {
    assert (a + 1) * size <= b * size;
  }

  lemma DivideUp(total: nat, size: nat, page: nat)
    requires size > 0
    ensures page < (total + size - 1) / size <==> page * size < total
  {
    var q := (total + size - 1) / size;
    var r := (total + size - 1) % size;
    assert total + size - 1 == q * size + r;
    if page < q {
      RowsApart(page, q, size);
    } else if page > q {
      RowsApart(q, page, size);
    }
  }

  /** `page` is the row of `index` exactly when the index lies in that row. */
  lemma RowOf(index: nat, page: nat, size: nat)
    requires size > 0
    ensures page == index / size <==> page * size <= index < page * size + size
  {
    var q, r := index / size, index % size;
    assert index == q * size + r;
    if page < q {
      RowsApart(page, q, size);
    } else if page > q {
      RowsApart(q, page, size);
    }
  }

  lemma CountIs(total: nat, pageSize: nat, wrap: nat)
    requires 0 < pageSize && 0 < total && total + pageSize - 1 < wrap
    ensures PageCount(total, pageSize, wrap) == (total + pageSize - 1) / pageSize
  {
    SmallModulo(total + pageSize - 1, wrap);
  }

  lemma CountAndStart(total: nat, pageSize: nat, wrap: nat, page: nat)
    requires 0 < pageSize && 0 < total && total + pageSize - 1 < wrap
    ensures page < PageCount(total, pageSize, wrap) <==> page * pageSize < total
    ensures page * pageSize < total ==> PageStart(page, pageSize, wrap) == page * pageSize
  {
    hide PageCount;
    CountIs(total, pageSize, wrap);
    DivideUp(total, pageSize, page);
    if page * pageSize < total {
      SmallModulo(page * pageSize, wrap);
    }
  }

  lemma SmallModulo(n: nat, wrap: nat)
    requires n < wrap
    ensures n % wrap == n
  {
  }

  /** As long as the sum does not wrap, every entry is on exactly one page and the pages run up to the count. */
  lemma PagesPartition(total: nat, pageSize: nat, wrap: nat, index: nat, page: nat)
    requires 0 < pageSize && total + pageSize - 1 < wrap && index < total && page < PageCount(total, pageSize, wrap)
    ensures PageStart(page, pageSize, wrap) <= index < PageStart(page, pageSize, wrap)
            + VisibleCount(total, page, pageSize, wrap)
            <==> page == index / pageSize
    ensures index / pageSize < PageCount(total, pageSize, wrap)
  {
    hide PageCount, PageStart;
    CountAndStart(total, pageSize, wrap, page);
    CountAndStart(total, pageSize, wrap, index / pageSize);
    RowOf(index, page, pageSize);
    RowOf(index, index / pageSize, pageSize);
  }

  predicate OnPage(index: nat, page: nat, total: nat, pageSize: nat, wrap: nat)
    requires 0 < pageSize < wrap
  {
    && page < PageCount(total, pageSize, wrap) && PageStart(page, pageSize, wrap) <= index
    && index < PageStart(page, pageSize, wrap) + VisibleCount(total, page, pageSize, wrap)
  }

  ghost predicate Shown(index: nat, total: nat, pageSize: nat, wrap: nat)
    requires 0 < pageSize < wrap
  {
    exists page: nat :: OnPage(index, page, total, pageSize, wrap)
  }

  /** Every entry is on a counted page exactly when the sum does not wrap; when it does, no page is counted. */
  lemma PagesCoverExactly(total: nat, pageSize: nat, wrap: nat)
    requires 0 < pageSize < wrap && 0 < total < wrap
    ensures (forall index: nat :: index < total ==> Shown(index, total, pageSize, wrap)) <==>
            total + pageSize - 1 < wrap
    ensures total + pageSize - 1 >= wrap ==> PageCount(total, pageSize, wrap) == 0
  {
    hide PageCount, PageStart, VisibleCount;
    if total + pageSize - 1 < wrap {
      forall index: nat | index < total ensures Shown(index, total, pageSize, wrap) {
        var page := index / pageSize;
        RowOf(index, page, pageSize);
        CountAndStart(total, pageSize, wrap, page);
        PagesPartition(total, pageSize, wrap, index, page);
        assert OnPage(index, page, total, pageSize, wrap);
      }
    } else {
      NoPages(total, pageSize, wrap);
      assert !Shown(0, total, pageSize, wrap);
    }
  }

  lemma NoPages(total: nat, pageSize: nat, wrap: nat)
    requires 0 < pageSize < wrap && 0 < total < wrap && wrap <= total + pageSize - 1
    ensures PageCount(total, pageSize, wrap) == 0
  {
    WrapOnce(total + pageSize - 1, wrap);
    SmallQuotient(total + pageSize - 1 - wrap, pageSize);
  }

  lemma WrapOnce(n: nat, wrap: nat)
    requires wrap <= n < wrap + wrap
    ensures n % wrap == n - wrap
  {
    var q, r := n / wrap, n % wrap;
    assert n == q * wrap + r;
    if q > 1 {
      RowsApart(1, q, wrap);
    }
  }

  lemma SmallQuotient(n: nat, size: nat)
    requires n < size
    ensures n / size == 0
  {
  }
}
