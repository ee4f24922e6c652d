/**
 What the NEAR and WINDOW sweeps share: one cursor per position list, tuples of positions that
 take one entry of every list, and families of tuples that never use an entry twice.

 A tuple is kept as indices into the lists, so two tuples are disjoint when they differ at every
 argument, even when the lists of two arguments hold equal positions.
 */
module Sweeps {
  import opened Sequences

  type Lists = seq<seq<int>>
  type Tuple = seq<nat>

  /** The position lists of one document, as a materialised inverted list stores them. */
  ghost predicate Ordered(lists: Lists) {
    forall i :: 0 <= i < |lists| ==> StrictlyIncreasing(lists[i]) && NonNegative(lists[i])
  }

  /** Cursors may stand on an entry or just past the last one. */
  predicate Cursors(lists: Lists, heads: Tuple) {
    |heads| == |lists| && forall i :: 0 <= i < |lists| ==> heads[i] <= |lists[i]|
  }

  predicate OutOfDoc(lists: Lists, heads: Tuple)
    requires Cursors(lists, heads)
  {
    exists i :: 0 <= i < |lists| && heads[i] == |lists[i]|
  }

  predicate Within(lists: Lists, c: Tuple) {
    |c| == |lists| && forall i :: 0 <= i < |lists| ==> c[i] < |lists[i]|
  }

  function At(lists: Lists, c: Tuple, i: nat): int
    requires Within(lists, c) && i < |lists|
  {
    lists[i][c[i]]
  }

  /** The tuple uses nothing the cursors have already passed. */
  predicate From(heads: Tuple, c: Tuple) {
    |c| == |heads| && forall i :: 0 <= i < |heads| ==> heads[i] <= c[i]
  }

  function Bump(heads: Tuple): (r: Tuple)
    ensures |r| == |heads| && forall i :: 0 <= i < |heads| ==> r[i] == heads[i] + 1
  {
    seq(|heads|, i requires 0 <= i < |heads| => heads[i] + 1)
  }

  function Start(lists: Lists): (r: Tuple)
    ensures |r| == |lists| && forall i :: 0 <= i < |r| ==> r[i] == 0
  {
    seq(|lists|, i => 0)
  }

  /** The two tuples share no entry. */
  predicate Apart(c: Tuple, d: Tuple) {
    |c| == |d| && forall i :: 0 <= i < |c| ==> c[i] != d[i]
  }

  /** `d` lies strictly after `c` at every argument. */
  predicate Before(c: Tuple, d: Tuple) {
    |c| == |d| && forall i :: 0 <= i < |c| ==> c[i] < d[i]
  }

  /** No entry of any list is used by two members of the family. */
  ghost predicate Disjoint(family: seq<Tuple>) {
    forall a, b :: 0 <= a < b < |family| ==> Apart(family[a], family[b])
  }

  ghost predicate Ascending(family: seq<Tuple>) {
    forall a, b :: 0 <= a < b < |family| ==> Before(family[a], family[b])
  }

  /** Once a cursor is past its list, no tuple is left. */
  lemma NothingOutOfDoc(lists: Lists, heads: Tuple, c: Tuple)
    requires Cursors(lists, heads) && OutOfDoc(lists, heads) && Within(lists, c)
    ensures !From(heads, c)
  {
    var i :| 0 <= i < |lists| && heads[i] == |lists[i]|;
    assert c[i] < heads[i];
  }

  /** Entries not yet passed, over the first `k` lists; it bounds the sweeps. */
  function Left(lists: Lists, heads: Tuple, k: nat): nat
    requires Cursors(lists, heads) && k <= |lists|
  {
    if k == 0 then 0 else Left(lists, heads, k - 1) + (|lists[k - 1]| - heads[k - 1])
  }

  lemma {:induction false} LeftAfterSkip(lists: Lists, heads: Tuple, i: nat, k: nat)
    requires Cursors(lists, heads) && i < |lists| && heads[i] < |lists[i]| && k <= |lists|
    ensures Left(lists, heads[i := heads[i] + 1], k) == Left(lists, heads, k) - (if i < k then 1 else 0)
  {
    if k > 0 {
      LeftAfterSkip(lists, heads, i, k - 1);
    }
  }

  lemma {:induction false} LeftAfterBump(lists: Lists, heads: Tuple, k: nat)
    requires Within(lists, heads) && k <= |lists|
    ensures Left(lists, Bump(heads), k) == Left(lists, heads, k) - k
  {
    if k > 0 {
      LeftAfterBump(lists, heads, k - 1);
    }
  }

  lemma InDoc(lists: Lists, heads: Tuple)
    requires Cursors(lists, heads) && !OutOfDoc(lists, heads)
    ensures Within(lists, heads) && |heads| == |lists|
  {
  }

  lemma Bumped(lists: Lists, heads: Tuple)
    requires Within(lists, heads) && |lists| > 0
    ensures Cursors(lists, heads) && !OutOfDoc(lists, heads) && Cursors(lists, Bump(heads))
    ensures Left(lists, Bump(heads), |lists|) < Left(lists, heads, |lists|)
  {
    LeftAfterBump(lists, heads, |lists|);
  }

  lemma Skipped(lists: Lists, heads: Tuple, i: nat)
    requires Within(lists, heads) && i < |lists|
    ensures |heads| == |lists| && Cursors(lists, heads) && Cursors(lists, heads[i := heads[i] + 1])
    ensures Left(lists, heads[i := heads[i] + 1], |lists|) < Left(lists, heads, |lists|)
  {
    LeftAfterSkip(lists, heads, i, |lists|);
  }

  // ----- The cursors as both operators keep them, in a list updated in place

  function Heads(indices: array<nat>): (h: Tuple)
    reads indices
    ensures |h| == indices.Length
  {
    indices[..]
  }

  method AdvanceAll(lists: Lists, indices: array<nat>)
    requires Within(lists, Heads(indices))
    modifies indices
    ensures Heads(indices) == Bump(old(Heads(indices)))
  {
    ghost var heads := Heads(indices);
    for i := 0 to indices.Length
      invariant forall k :: 0 <= k < i ==> indices[k] == heads[k] + 1
      invariant forall k :: i <= k < indices.Length ==> indices[k] == heads[k]
    {
      indices[i] := indices[i] + 1;
    }
  }
}
