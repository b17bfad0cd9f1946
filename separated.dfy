/**
 The tag segment of the caption message joins tag names with the two-character
 separator `" ,"`. This module defines that separator, joining with it, the
 inverse split at every occurrence, and a count of its occurrences, and proves
 how they relate. The separator cannot overlap itself (it starts with a space
 and ends with a comma), so a split at every occurrence is well defined.
 */
module Separated {

  const Separator: string := " ,"

  /** True when `s` begins with `Separator`. */
  predicate StartsWithSeparator(s: string) {
    |s| >= 2 && s[0] == ' ' && s[1] == ','
  }

  /** Number of positions at which `Separator` occurs in `s`. */
  function SeparatorCount(s: string): nat
    decreases |s|
  {
    if |s| < 2 then 0
    else (if StartsWithSeparator(s) then 1 else 0) + SeparatorCount(s[1..])
  }

  predicate ContainsSeparator(s: string) {
    SeparatorCount(s) > 0
  }

  /** `parts[0] + " ," + parts[1] + " ," + ... + parts[|parts| - 1]`. */
  function Join(parts: seq<string>): string
    requires |parts| >= 1
    decreases |parts|
  {
    if |parts| == 1 then parts[0] else parts[0] + Separator + Join(parts[1..])
  }

  /** The pieces of `s` between occurrences of `Separator`, from left to right. */
  function Split(s: string): (parts: seq<string>)
    ensures |parts| == SeparatorCount(s) + 1
    decreases |s|
  {
    if |s| < 2 then [s]
    else if StartsWithSeparator(s) then
      assert s[1..][1..] == s[2..];
      [""] + Split(s[2..])
    else
      var rest := Split(s[1..]);
      [[s[0]] + rest[0]] + rest[1..]
  }

  /** A string without the separator is a single piece. */
  lemma {:induction false} SplitWithoutSeparator(s: string)
    requires !ContainsSeparator(s)
    ensures Split(s) == [s]
    decreases |s|
  {
    if |s| >= 2 {
      SplitWithoutSeparator(s[1..]);
      assert [s[0]] + s[1..] == s;
    }
  }

  /** Splitting distributes over a separator: the separator closes the last piece of `a`. */
  lemma {:induction false} SplitAround(a: string, b: string)
    ensures Split(a + Separator + b) == Split(a) + Split(b)
    decreases |a|
  {
    var s := a + Separator + b;
    if |a| == 0 {
      assert s == Separator + b;
      assert StartsWithSeparator(s) && s[2..] == b;
    } else if StartsWithSeparator(a) {
      assert StartsWithSeparator(s);
      assert s[2..] == a[2..] + Separator + b;
      SplitAround(a[2..], b);
    } else {
      assert !StartsWithSeparator(s);
      assert s[1..] == a[1..] + Separator + b;
      SplitAround(a[1..], b);
      var pieces := Split(a[1..]);
      var rest := Split(s[1..]);
      assert rest == pieces + Split(b);
      assert rest[0] == pieces[0];
      assert rest[1..] == pieces[1..] + Split(b);
      if |a| == 1 {
        assert Split(a) == [a];
        assert pieces == [""];
        assert [a[0]] + pieces[0] == a;
      } else {
        assert Split(a) == [[a[0]] + pieces[0]] + pieces[1..];
      }
      assert Split(a) == [[a[0]] + pieces[0]] + pieces[1..];
      assert Split(s) == [[a[0]] + pieces[0]] + (pieces[1..] + Split(b));
      assert Split(s) == ([[a[0]] + pieces[0]] + pieces[1..]) + Split(b);
    }
  }

  /** Splitting undoes joining, as long as no part contains the separator. */
  lemma {:induction false} SplitJoin(parts: seq<string>)
    requires |parts| >= 1
    requires forall i :: 0 <= i < |parts| ==> !ContainsSeparator(parts[i])
    ensures Split(Join(parts)) == parts
    decreases |parts|
  {
    SplitWithoutSeparator(parts[0]);
    if |parts| > 1 {
      SplitAround(parts[0], Join(parts[1..]));
      SplitJoin(parts[1..]);
    }
  }

  /** Joining undoes splitting, for every string. */
  lemma {:induction false} JoinSplit(s: string)
    ensures Join(Split(s)) == s
    decreases |s|
  {
    if |s| < 2 {
    } else if StartsWithSeparator(s) {
      JoinSplit(s[2..]);
      JoinAfterEmpty(Split(s[2..]));
      assert Separator + s[2..] == s;
    } else {
      JoinSplit(s[1..]);
      JoinExtendFirst(s[0], Split(s[1..]));
      assert [s[0]] + s[1..] == s;
    }
  }

  /** An empty first part leaves the join starting with a bare separator. */
  lemma {:induction false} JoinAfterEmpty(parts: seq<string>)
    requires |parts| >= 1
    ensures Join([""] + parts) == Separator + Join(parts)
  {
  }

  /** Extending the first part by a character extends the join by the same character. */
  lemma {:induction false} JoinExtendFirst(c: char, parts: seq<string>)
    requires |parts| >= 1
    ensures Join([[c] + parts[0]] + parts[1..]) == [c] + Join(parts)
  {
  }

  /** A join of five parts, spelled out. */
  lemma JoinFive(s0: string, s1: string, s2: string, s3: string, s4: string)
    ensures Join([s0, s1, s2, s3, s4])
      == s0 + Separator + s1 + Separator + s2 + Separator + s3 + Separator + s4
  {
    assert [s3, s4][1..] == [s4];
    var j3 := s3 + Separator + s4;
    assert Join([s3, s4]) == j3;
    assert [s2, s3, s4][1..] == [s3, s4];
    var j2 := s2 + Separator + j3;
    assert Join([s2, s3, s4]) == j2;
    assert [s1, s2, s3, s4][1..] == [s2, s3, s4];
    var j1 := s1 + Separator + j2;
    assert Join([s1, s2, s3, s4]) == j1;
    assert [s0, s1, s2, s3, s4][1..] == [s1, s2, s3, s4];
    assert Join([s0, s1, s2, s3, s4]) == s0 + Separator + j1;
  }

  /** Occurrences of the separator add up across a join. */
  lemma SeparatorCountAround(a: string, b: string)
    ensures SeparatorCount(a + Separator + b) == SeparatorCount(a) + 1 + SeparatorCount(b)
  {
    SplitAround(a, b);
  }

  /** A join of n parts holds at least n - 1 separators, and exactly n - 1 when no part contains one. */
  lemma {:induction false} JoinCount(parts: seq<string>)
    requires |parts| >= 1
    ensures SeparatorCount(Join(parts)) >= |parts| - 1
    ensures SeparatorCount(Join(parts)) == |parts| - 1
        <==> forall i :: 0 <= i < |parts| ==> !ContainsSeparator(parts[i])
    decreases |parts|
  {
    if |parts| > 1 {
      var tail := parts[1..];
      SeparatorCountAround(parts[0], Join(tail));
      JoinCount(tail);
      assert forall i :: 1 <= i < |parts| ==> parts[i] == tail[i - 1];
      if SeparatorCount(Join(parts)) == |parts| - 1 {
        assert forall i :: 0 <= i < |tail| ==> !ContainsSeparator(tail[i]);
      }
    }
  }
}
