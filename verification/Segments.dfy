/** Cutting strings at a mark and joining them again. */
module Segments {

  predicate Free(s: string, mark: char) {
    mark !in s
  }

  predicate AllFree(parts: seq<string>, mark: char) {
    forall i :: 0 <= i < |parts| ==> Free(parts[i], mark)
  }

  /** The parts between marks; one more part than marks, empty parts included. */
  function Split(s: string, mark: char): (parts: seq<string>)
    ensures parts != [] && AllFree(parts, mark)
  {
    if s == "" then [""]
    else
      var rest := Split(s[1..], mark);
      if s[0] == mark then [""] + rest else [[s[0]] + rest[0]] + rest[1..]
  }

  function Join(parts: seq<string>, mark: char): string {
    if parts == [] then ""
    else if |parts| == 1 then parts[0]
    else parts[0] + [mark] + Join(parts[1..], mark)
  }

  lemma {:induction false} JoinSplit(s: string, mark: char)
    ensures Join(Split(s, mark), mark) == s
    decreases |s|
  {
    if s != "" {
      var parts, rest := Split(s, mark), Split(s[1..], mark);
      JoinSplit(s[1..], mark);
      assert s == [s[0]] + s[1..];
      if s[0] == mark {
        assert parts[1..] == rest;
        assert Join(parts, mark) == "" + [mark] + s[1..];
      } else {
        assert parts[1..] == rest[1..];
        assert [s[0]] + (rest[0] + [mark] + Join(rest[1..], mark)) == [s[0]] + rest[0] + [mark] + Join(rest[1..], mark);
      }
    }
  }

  /** Text up to the first mark is the first part. */
  lemma {:induction false} SplitAtMark(s: string, mark: char, at: nat)
    requires at <= |s| && Free(s[..at], mark) && (at < |s| ==> s[at] == mark)
    ensures Split(s, mark) == if at == |s| then [s] else [s[..at]] + Split(s[at + 1..], mark)
    decreases |s|
  {
    if s != "" && at > 0 {
      assert s[0] in s[..at] && s == [s[0]] + s[1..];
      assert forall c :: c in s[1..][..at - 1] ==> c in s[..at];
      SplitAtMark(s[1..], mark, at - 1);
      assert s[..at] == [s[0]] + s[1..][..at - 1];
      assert s[1..][at - 1..] == s[at..] && (at < |s| ==> s[1..][at..] == s[at + 1..]);
    }
  }

  lemma {:induction false} SplitJoin(parts: seq<string>, mark: char)
    requires parts != [] && AllFree(parts, mark)
    ensures Split(Join(parts, mark), mark) == parts
    decreases |parts|
  {
    var s, first := Join(parts, mark), parts[0];
    if |parts| == 1 {
      assert s[..|s|] == s;
      SplitAtMark(s, mark, |s|);
    } else {
      SplitJoin(parts[1..], mark);
      assert s[..|first|] == first && s[|first| + 1..] == Join(parts[1..], mark);
      SplitAtMark(s, mark, |first|);
    }
  }

  lemma {:induction false} JoinSnoc(parts: seq<string>, last: string, mark: char)
    requires parts != []
    ensures Join(parts + [last], mark) == Join(parts, mark) + [mark] + last
    decreases |parts|
  {
    var all := parts + [last];
    if |parts| == 1 {
      assert all[1..] == [last];
    } else {
      JoinSnoc(parts[1..], last, mark);
      assert all[1..] == parts[1..] + [last];
      assert parts[0] + [mark] + (Join(parts[1..], mark) + [mark] + last)
          == (parts[0] + [mark] + Join(parts[1..], mark)) + [mark] + last;
    }
  }

  /** Position of the next mark from `begin` on, the length when there is none. */
  method FindMark(text: string, begin: nat, mark: char) returns (end: nat)
    requires begin <= |text|
    ensures begin <= end <= |text| && Free(text[begin..end], mark) && (end < |text| ==> text[end] == mark)
  {
    end := begin;
    while end < |text| && text[end] != mark
      invariant begin <= end <= |text| && Free(text[begin..end], mark)
    {
      end := end + 1;
      assert text[begin..end] == text[begin..end - 1] + [text[end - 1]];
    }
  }
}
