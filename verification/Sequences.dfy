/** Ordered integer sequences: the form of position lists and docid lists. */
module Sequences {

  ghost predicate StrictlyIncreasing(s: seq<int>) {
    forall i, j :: 0 <= i < j < |s| ==> s[i] < s[j]
  }

  ghost predicate NonNegative(s: seq<int>) {
    forall i :: 0 <= i < |s| ==> 0 <= s[i]
  }

  function Max(s: seq<int>): (m: int)
    requires s != []
    ensures m in s
    ensures forall i :: 0 <= i < |s| ==> s[i] <= m
  {
    if |s| == 1 then s[0]
    else
      var rest := Max(s[1..]);
      assert forall i :: 1 <= i < |s| ==> s[i] == s[1..][i - 1];
      if rest < s[0] then s[0] else rest
  }

  function Min(s: seq<int>): (m: int)
    requires s != []
    ensures m in s
    ensures forall i :: 0 <= i < |s| ==> m <= s[i]
  {
    if |s| == 1 then s[0]
    else
      var rest := Min(s[1..]);
      assert forall i :: 1 <= i < |s| ==> s[i] == s[1..][i - 1];
      if s[0] < rest then s[0] else rest
  }

  /** The first position of the smallest element. */
  function FirstMin(s: seq<int>): (k: nat)
    requires s != []
    ensures k < |s|
    ensures forall j :: 0 <= j < |s| ==> s[k] <= s[j]
    ensures forall j :: 0 <= j < k ==> s[k] < s[j]
  {
    if |s| == 1 then 0
    else
      var rest := FirstMin(s[1..]);
      assert forall j :: 1 <= j < |s| ==> s[j] == s[1..][j - 1];
      if s[0] <= s[rest + 1] then 0 else rest + 1
  }

  /** The head of an increasing sequence lies below the rest, which is increasing. */
  lemma HeadAndTail(s: seq<int>)
    requires StrictlyIncreasing(s) && s != []
    ensures StrictlyIncreasing(s[1..])
    ensures forall y :: y in s <==> y == s[0] || y in s[1..]
    ensures forall y :: y in s[1..] ==> s[0] < y
  {
    assert s == [s[0]] + s[1..];
  }

  lemma PutBefore(x: int, s: seq<int>)
    requires StrictlyIncreasing(s) && forall y :: y in s ==> x < y
    ensures StrictlyIncreasing([x] + s)
    ensures forall y :: y in [x] + s <==> y == x || y in s
  {
    var r := [x] + s;
    forall i, j | 0 <= i < j < |r| ensures r[i] < r[j] {
      assert r[j] == s[j - 1] && s[j - 1] in s;
    }
  }

  /** Insert `x` into an ordered sequence, dropping it when it is already there. */
  function InsertUnique(x: int, s: seq<int>): (r: seq<int>)
    requires StrictlyIncreasing(s)
    ensures StrictlyIncreasing(r)
    ensures forall y :: y in r <==> y == x || y in s
  {
    if s == [] then [x]
    else
      HeadAndTail(s);
      if x < s[0] then
        PutBefore(x, s);
        [x] + s
      else if x == s[0] then s
      else
        var rest := InsertUnique(x, s[1..]);
        PutBefore(s[0], rest);
        [s[0]] + rest
  }

  /** sorted(set(s)) */
  function SortedSet(s: seq<int>): (r: seq<int>)
    ensures StrictlyIncreasing(r)
    ensures forall y :: y in r <==> y in s
  {
    if s == [] then []
    else
      assert s == [s[0]] + s[1..];
      InsertUnique(s[0], SortedSet(s[1..]))
  }

  /** A strictly increasing sequence is determined by its elements. */
  lemma {:induction false} SameElementsSameSequence(s: seq<int>, t: seq<int>)
    requires StrictlyIncreasing(s) && StrictlyIncreasing(t)
    requires forall y :: y in s <==> y in t
    ensures s == t
  {
    hide StrictlyIncreasing;
    if s == [] || t == [] {
      if t != [] {
        SomethingIn(t);
      }
      if s != [] {
        SomethingIn(s);
      }
    } else {
      HeadAndTail(s);
      HeadAndTail(t);
      var x, y := s[0], t[0];
      assert x in s && x in t && y in t && y in s;
      assert s == [x] + s[1..] && t == [y] + t[1..];
      SameElementsSameSequence(s[1..], t[1..]);
    }
  }

  lemma SomethingIn(s: seq<int>)
    requires s != []
    ensures exists y :: y in s
  {
    var y := s[0];
    assert y in s;
  }
}
