/**
 What iterators have to find: first matches, and where none is left; how lists under construction are
 completed; and how the matches of an operator follow from those of its arguments.
 */
module FirstMatches {
  import opened Wrappers
  import opened Sequences
  import opened InvertedLists
  import opened QueryTree
  import opened Semantics
  import Sweeps

  /** `d` is the first match of `q` that is not below `lo`. */
  ghost predicate IsFirst(q: Qry, ix: Index, lo: int, d: int) {
    lo <= d && Matches(q, ix, d) && forall e :: lo <= e < d ==> !Matches(q, ix, e)
  }

  ghost predicate NoneFrom(q: Qry, ix: Index, lo: int) {
    forall e :: lo <= e ==> !Matches(q, ix, e)
  }

  ghost predicate NoneBetween(q: Qry, ix: Index, lo: int, hi: int) {
    forall e :: lo <= e < hi ==> !Matches(q, ix, e)
  }

  /** The list holds exactly what the node means: its positions in every document. */
  ghost predicate Materialises(ps: seq<Posting>, q: Qry, ix: Index) {
    WellFormed(ps, ix.numDocs) && forall d :: PositionsIn(ps, d) == Positions(q, ix, d)
  }

  /** The iterator of a list stands at the first posting not below `lo`. */
  ghost predicate StandsAt(ps: seq<Posting>, index: int, lo: int) {
    && 0 <= index <= |ps|
    && (forall k :: 0 <= k < index ==> ps[k].docid < lo)
    && (forall k :: index <= k < |ps| ==> lo <= ps[k].docid)
  }

  lemma FirstInList(ps: seq<Posting>, q: Qry, ix: Index, index: nat, lo: int)
    requires q.IsIop() && Materialises(ps, q, ix) && StandsAt(ps, index, lo)
    ensures index < |ps| ==> IsFirst(q, ix, lo, ps[index].docid)
    ensures index == |ps| ==> NoneFrom(q, ix, lo)
  {
    if index < |ps| {
      FoundAt(ps, ix.numDocs, index);
    }
    forall e | lo <= e && Matches(q, ix, e) ensures index < |ps| && ps[index].docid <= e {
      var k := Stored(ps, ix.numDocs, e);
    }
  }

  /** A list that does not stand at `d`, though nothing before `d` is left, has no posting for it. */
  lemma PassedBy(ps: seq<Posting>, q: Qry, ix: Index, index: nat, lo: int, d: int)
    requires q.IsIop() && Materialises(ps, q, ix) && StandsAt(ps, index, lo)
    requires lo <= d && NoneBetween(q, ix, lo, d) && !(index < |ps| && ps[index].docid == d)
    ensures Positions(q, ix, d) == [] && StandsAt(ps, index, d + 1)
  {
    hide Positions;
    FirstInList(ps, q, ix, index, lo);
    assert !Matches(q, ix, d);
    if index < |ps| {
      assert d < ps[index].docid;
      hide Materialises, IsFirst, NoneBetween, Matches;
      assert forall k :: index < k < |ps| ==> ps[index].docid < ps[k].docid by {
        ListOrdered(ps, q, ix);
      }
    }
  }

  lemma ListOrdered(ps: seq<Posting>, q: Qry, ix: Index)
    requires Materialises(ps, q, ix)
    ensures forall i, j :: 0 <= i < j < |ps| ==> ps[i].docid < ps[j].docid
  {
  }

  /** A tree the engine can run: as appendArg builds it, with no operator left without arguments. */
  ghost predicate Evaluable(q: Qry) {
    WellTyped(q) && NoEmptyNode(q)
  }

  lemma ArgsEvaluable(q: Qry)
    requires Evaluable(q)
    ensures forall i :: 0 <= i < |q.Args()| ==> Evaluable(q.Args()[i])
  {
  }

  /** The documents that match every argument of `q`, as an AND of them would. */
  function Conj(q: Qry): Qry {
    Node(AND, "", q.Args(), [])
  }

  lemma ConjMatches(q: Qry, ix: Index, d: int)
    requires q.Args() != []
    ensures Matches(Conj(q), ix, d) <==> forall i :: 0 <= i < |q.Args()| ==> Matches(q.Args()[i], ix, d)
  {
  }

  /** When argument `i` has nothing before `hi`, neither has the conjunction. */
  lemma ConjFollowsArg(q: Qry, ix: Index, from: int, i: nat, lo: int, hi: int)
    requires i < |q.Args()| && NoneBetween(Conj(q), ix, from, lo) && NoneBetween(q.Args()[i], ix, lo, hi)
    ensures NoneBetween(Conj(q), ix, from, hi)
  {
    forall e | from <= e < hi ensures !Matches(Conj(q), ix, e) {
      ConjMatches(q, ix, e);
    }
  }

  lemma ConjExhausted(q: Qry, ix: Index, from: int, i: nat, lo: int)
    requires i < |q.Args()| && NoneBetween(Conj(q), ix, from, lo) && NoneFrom(q.Args()[i], ix, lo)
    ensures NoneFrom(Conj(q), ix, from)
  {
    forall e | from <= e ensures !Matches(Conj(q), ix, e) {
      ConjMatches(q, ix, e);
    }
  }

  lemma ConjFirst(q: Qry, ix: Index, from: int, d: int)
    requires q.Args() != [] && from <= d && NoneBetween(Conj(q), ix, from, d)
    requires forall i :: 0 <= i < |q.Args()| ==> Matches(q.Args()[i], ix, d)
    ensures IsFirst(Conj(q), ix, from, d)
  {
    ConjMatches(q, ix, d);
  }

  lemma NonEmpty(q: Qry)
    requires Evaluable(q) && q.Node?
    ensures q.args != []
  {
  }

  lemma AndIsConj(q: Qry, ix: Index)
    requires q.Node? && q.op.AND?
    ensures forall lo, d :: IsFirst(q, ix, lo, d) <==> IsFirst(Conj(q), ix, lo, d)
    ensures forall lo, hi :: NoneBetween(q, ix, lo, hi) <==> NoneBetween(Conj(q), ix, lo, hi)
    ensures forall lo :: NoneFrom(q, ix, lo) <==> NoneFrom(Conj(q), ix, lo)
  {
    assert forall e :: Matches(q, ix, e) <==> Matches(Conj(q), ix, e);
  }

  lemma ScoreFirst(q: Qry, ix: Index, lo: int)
    requires q.Node? && q.op.SCORE? && Evaluable(q)
    ensures |q.args| == 1
    ensures forall d :: IsFirst(q, ix, lo, d) <==> IsFirst(q.args[0], ix, lo, d)
    ensures NoneFrom(q, ix, lo) <==> NoneFrom(q.args[0], ix, lo)
  {
    assert forall e :: Matches(q, ix, e) <==> Matches(q.args[0], ix, e);
  }

  predicate MatchesAny(q: Qry) {
    q.Node? && (q.op.OR? || q.op.SUM? || q.op.WSUM?)
  }

  /** The smallest match, from `lo` on, of the first `k` arguments. */
  ghost predicate MinOf(q: Qry, ix: Index, lo: int, k: nat, best: Option<int>)
    requires k <= |q.Args()|
  {
    match best
    case None => forall i :: 0 <= i < k ==> NoneFrom(q.Args()[i], ix, lo)
    case Some(x) =>
      && lo <= x < ix.numDocs
      && (forall i :: 0 <= i < k ==> NoneBetween(q.Args()[i], ix, lo, x))
      && (exists i :: 0 <= i < k && Matches(q.Args()[i], ix, x))
  }

  lemma AnyMatches(q: Qry, ix: Index, d: int)
    requires MatchesAny(q)
    ensures Matches(q, ix, d) <==> exists i :: 0 <= i < |q.args| && Matches(q.args[i], ix, d)
  {
  }

  lemma AnyMin(q: Qry, ix: Index, lo: int, best: Option<int>)
    requires MatchesAny(q) && MinOf(q, ix, lo, |q.args|, best)
    ensures best.None? ==> NoneFrom(q, ix, lo)
    ensures best.Some? ==> IsFirst(q, ix, lo, best.value)
  {
    forall e ensures Matches(q, ix, e) <==> exists i :: 0 <= i < |q.args| && Matches(q.args[i], ix, e) {
      AnyMatches(q, ix, e);
    }
    hide Matches;
    if best.None? {
      forall e, i | lo <= e && 0 <= i < |q.args| ensures !Matches(q.args[i], ix, e) {
        assert NoneFrom(q.Args()[i], ix, lo);
      }
    }
  }

  lemma MinOfNothing(q: Qry, ix: Index, lo: int)
    ensures MinOf(q, ix, lo, 0, None)
  {
  }

  /** One more argument: its first match, if smaller, replaces the best one so far. */
  lemma MinStep(q: Qry, ix: Index, lo: int, k: nat, best: Option<int>, d: int)
    requires ValidIndex(ix) && k < |q.Args()| && MinOf(q, ix, lo, k, best) && IsFirst(q.Args()[k], ix, lo, d)
    ensures MinOf(q, ix, lo, k + 1, if best.None? || d < best.value then Some(d) else best)
  {
    hide Matches;
    if best.Some? && best.value <= d {
      BetweenShorter(q.Args()[k], ix, lo, d, best.value);
    } else {
      MatchesInCollection(q.Args()[k], ix, d);
      MinTakes(q, ix, lo, k, best, d);
    }
  }

  lemma MinTakes(q: Qry, ix: Index, lo: int, k: nat, best: Option<int>, d: int)
    requires k < |q.Args()| && MinOf(q, ix, lo, k, best) && IsFirst(q.Args()[k], ix, lo, d) && d < ix.numDocs
    requires best.Some? ==> d < best.value
    ensures MinOf(q, ix, lo, k + 1, Some(d))
  {
    hide Matches, NoneBetween;
    forall i | 0 <= i < k ensures NoneBetween(q.Args()[i], ix, lo, d) {
      if best.Some? {
        BetweenShorter(q.Args()[i], ix, lo, best.value, d);
      } else {
        NoneFromBetween(q.Args()[i], ix, lo, d);
      }
    }
    FirstLeavesNone(q.Args()[k], ix, lo, d);
    assert Matches(q.Args()[k], ix, d);
  }

  lemma NoneFromBetween(q: Qry, ix: Index, lo: int, hi: int)
    requires NoneFrom(q, ix, lo)
    ensures NoneBetween(q, ix, lo, hi)
  {
  }

  lemma BetweenShorter(q: Qry, ix: Index, lo: int, hi: int, at: int)
    requires NoneBetween(q, ix, lo, hi) && at <= hi
    ensures NoneBetween(q, ix, lo, at)
  {
  }

  lemma MinUnchanged(q: Qry, ix: Index, lo: int, k: nat, best: Option<int>)
    requires k < |q.Args()| && MinOf(q, ix, lo, k, best) && NoneFrom(q.Args()[k], ix, lo)
    ensures MinOf(q, ix, lo, k + 1, best)
  {
    hide Matches;
    if best.Some? {
      assert NoneBetween(q.Args()[k], ix, lo, best.value);
    }
  }

  lemma NothingBetween(q: Qry, ix: Index, at: int)
    ensures NoneBetween(q, ix, at, at)
  {
  }

  lemma FirstLeavesNone(q: Qry, ix: Index, lo: int, d: int)
    requires IsFirst(q, ix, lo, d)
    ensures lo <= d && Matches(q, ix, d) && NoneBetween(q, ix, lo, d)
  {
  }

  /** A list under construction: right for every document below `from`, and without any other. */
  ghost predicate CompleteBelow(ps: seq<Posting>, q: Qry, ix: Index, from: int) {
    && WellFormed(ps, ix.numDocs)
    && (forall k :: 0 <= k < |ps| ==> ps[k].docid < from)
    && (forall d :: d < from ==> PositionsIn(ps, d) == Positions(q, ix, d))
  }

  lemma NothingBelowZero(q: Qry, ix: Index)
    requires ValidIndex(ix)
    ensures CompleteBelow([], q, ix, 0)
  {
    forall d | d < 0 ensures Positions(q, ix, d) == [] {
      if Positions(q, ix, d) != [] {
        PositionsInCollection(q, ix, d);
      }
    }
  }

  /** The posting of the next document, if it has one, extends the list. */
  lemma Extend(ps: seq<Posting>, q: Qry, ix: Index, from: int, d: int)
    requires ValidIndex(ix) && q.IsIop() && CompleteBelow(ps, q, ix, from)
    requires from <= d && NoneBetween(q, ix, from, d)
    ensures Positions(q, ix, d) == [] ==> CompleteBelow(ps, q, ix, d + 1)
    ensures Positions(q, ix, d) != [] ==>
              && (ps != [] ==> ps[|ps| - 1].docid < d)
              && CompleteBelow(ps + [Posting(d, Positions(q, ix, d))], q, ix, d + 1)
  {
    hide Positions;
    forall e | from <= e ensures PositionsIn(ps, e) == [] {
      NotFound(ps, e);
    }
    forall e | from <= e < d ensures Positions(q, ix, e) == [] {
      assert !Matches(q, ix, e);
    }
    if Positions(q, ix, d) != [] {
      PositionsInCollection(q, ix, d);
      PositionsOrdered(q, ix, d);
      AppendInOrder(ps, Posting(d, Positions(q, ix, d)), ix.numDocs);
    }
  }

  lemma Complete(ps: seq<Posting>, q: Qry, ix: Index, from: int)
    requires q.IsIop() && CompleteBelow(ps, q, ix, from) && NoneFrom(q, ix, from)
    ensures Materialises(ps, q, ix)
  {
    hide Positions;
    forall e | from <= e ensures PositionsIn(ps, e) == Positions(q, ix, e) {
      NotFound(ps, e);
      assert !Matches(q, ix, e);
    }
  }

  /** NEAR and WINDOW match nothing that one of their arguments does not match. */
  lemma ConjNone(q: Qry, ix: Index, from: int)
    requires q.Node? && (q.op.NEAR? || q.op.WINDOW?) && q.args != []
    requires WellTyped(q)
    ensures NoneFrom(Conj(q), ix, from) ==> NoneFrom(q, ix, from)
    ensures forall hi :: NoneBetween(Conj(q), ix, from, hi) ==> NoneBetween(q, ix, from, hi)
  {
    hide Positions;
    forall e | Matches(q, ix, e) ensures Matches(Conj(q), ix, e) {
      ConjMatches(q, ix, e);
      PositionsOfNode(q, ix, e);
      if i :| 0 <= i < |q.args| && !Matches(q.args[i], ix, e) {
        IopArgs(q, i);
        assert ArgPositions(q, ix, e)[i] == [];
        CombineNeedsLists(q.op, ArgPositions(q, ix, e));
      }
    }
  }

  /** SYN matches only where one of its arguments does. */
  lemma UnionNone(q: Qry, ix: Index, lo: int)
    requires WellTyped(q) && q.Node? && q.op.SYN?
    ensures (forall i :: 0 <= i < |q.args| ==> NoneFrom(q.args[i], ix, lo)) ==> NoneFrom(q, ix, lo)
    ensures forall hi :: (forall i :: 0 <= i < |q.args| ==> NoneBetween(q.args[i], ix, lo, hi)) ==>
            NoneBetween(q, ix, lo, hi)
  {
    hide Positions;
    forall e | Matches(q, ix, e) ensures exists i :: 0 <= i < |q.args| && Matches(q.args[i], ix, e) {
      PositionsOfNode(q, ix, e);
      if forall i :: 0 <= i < |q.args| ==> !Matches(q.args[i], ix, e) {
        forall i | 0 <= i < |q.args| ensures ArgPositions(q, ix, e)[i] == [] {
          IopArgs(q, i);
        }
        CombineOfNothing(q.op, ArgPositions(q, ix, e));
      }
    }
  }

  /** At its smallest document, the positions of SYN are the sorted union of its arguments' positions. */
  lemma UnionOf(q: Qry, ix: Index, lo: int, d: int)
    requires WellTyped(q) && q.Node? && q.op.SYN? && MinOf(q, ix, lo, |q.Args()|, Some(d))
    ensures lo <= d && NoneBetween(q, ix, lo, d)
    ensures forall i :: 0 <= i < |q.Args()| ==> NoneBetween(q.Args()[i], ix, lo, d)
    ensures Positions(q, ix, d) == SortedSet(Flatten(ArgPositions(q, ix, d))) && Positions(q, ix, d) != []
  {
    hide Positions;
    UnionNone(q, ix, lo);
    PositionsOfNode(q, ix, d);
    var i :| 0 <= i < |q.args| && Matches(q.args[i], ix, d);
    IopArgs(q, i);
    var y := Positions(q.args[i], ix, d)[0];
    assert y in ArgPositions(q, ix, d)[i];
    assert y in SortedSet(Flatten(ArgPositions(q, ix, d)));
  }

  lemma FlattenNone()
    ensures Flatten([]) == []
  {
  }

  lemma FlattenNext(lists: seq<seq<int>>, i: nat)
    requires i < |lists|
    ensures Flatten(lists[..i + 1]) == Flatten(lists[..i]) + lists[i]
  {
    assert lists[..i + 1] == lists[..i] + [lists[i]];
    FlattenAppend(lists[..i], lists[i]);
  }

  lemma FlattenWhole(lists: seq<seq<int>>)
    ensures lists[..|lists|] == lists
  {
  }

  lemma IopNode(q: Qry)
    requires WellTyped(q) && q.IsIop()
    ensures forall i :: 0 <= i < |q.Args()| ==> q.Args()[i].IsIop()
  {
  }

  lemma IopArgs(q: Qry, i: nat)
    requires WellTyped(q) && q.IsIop() && i < |q.Args()|
    ensures q.Args()[i].IsIop()
  {
  }

  lemma TypedArgs(q: Qry)
    requires Evaluable(q)
    ensures WellTyped(q) && forall i :: 0 <= i < |q.Args()| ==> WellTyped(q.Args()[i])
  {
  }

  lemma ArgsOrdered(q: Qry, ix: Index, d: int)
    requires ValidIndex(ix)
    ensures Sweeps.Ordered(ArgPositions(q, ix, d))
  {
    forall i | 0 <= i < |q.Args()|
      ensures StrictlyIncreasing(ArgPositions(q, ix, d)[i]) && NonNegative(ArgPositions(q, ix, d)[i])
    {
      PositionsOrdered(q.Args()[i], ix, d);
    }
  }

  lemma TermMaterialises(q: Qry, ix: Index)
    requires ValidIndex(ix) && q.Term?
    ensures Materialises(TermList(ix, q.term, q.field), q, ix)
  {
  }

  lemma StandsAtStart(ps: seq<Posting>, numDocs: nat)
    requires WellFormed(ps, numDocs)
    ensures StandsAt(ps, 0, 0)
  {
    forall k | 0 <= k < |ps| ensures 0 <= ps[k].docid {
      assert WellFormedPosting(ps[k], numDocs);
    }
  }

  lemma ScoreArg(q: Qry)
    requires Evaluable(q) && q.Node? && q.op.SCORE?
    ensures |q.args| == 1 && q.args[0].IsIop()
  {
  }

  lemma ScoreArgs(q: Qry, i: nat)
    requires Evaluable(q) && q.Node? && (q.op.AND? || MatchesAny(q)) && i < |q.args|
    ensures !q.args[i].IsIop()
  {
  }

  lemma AndMatchesArg(q: Qry, ix: Index, d: int, i: nat)
    requires q.Node? && q.op.AND? && Matches(q, ix, d) && i < |q.args|
    ensures Matches(q.args[i], ix, d)
  {
  }

  /** At the first match of the node, an argument's own first match tells whether it takes part. */
  lemma ArgFirst(q: Qry, ix: Index, lo: int, d: int, i: nat)
    requires MatchesAny(q) && IsFirst(q, ix, lo, d) && i < |q.args|
    ensures forall e :: IsFirst(q.args[i], ix, lo, e) ==> (e == d <==> Matches(q.args[i], ix, d))
    ensures NoneFrom(q.args[i], ix, lo) ==> !Matches(q.args[i], ix, d)
  {
    assert forall e :: Matches(q.args[i], ix, e) ==> Matches(q, ix, e);
  }

  lemma NothingAccumulated(q: Qry, ix: Index, m: Model, d: int)
    requires q.Node?
    ensures Accumulated(q, ix, m, d, 0) == Some(0.0)
  {
  }

  lemma AccumulatedStep(q: Qry, ix: Index, m: Model, d: int, k: nat)
    requires q.Node? && k < |q.args|
    ensures Accumulated(q, ix, m, d, k).Some? ==>
              Accumulated(q, ix, m, d, k + 1) ==
              if !Matches(q.args[k], ix, d) then Accumulated(q, ix, m, d, k)
              else match Score(q.args[k], ix, m, d)
                case None => None
                case Some(y) => Some(Join(q.op, k == 0, Accumulated(q, ix, m, d, k).value, WeightAt(q, k), y))
  {
  }

  lemma {:induction false} AccumulatedNone(q: Qry, ix: Index, m: Model, d: int, k: nat, n: nat)
    requires q.Node? && k <= n <= |q.args| && Accumulated(q, ix, m, d, k).None?
    ensures Accumulated(q, ix, m, d, n).None?
  {
    hide Score, Matches, Join, WeightAt;
    if k < n {
      AccumulatedNone(q, ix, m, d, k, n - 1);
    }
  }

  lemma LaterIs(lo: int, target: int, past: bool)
    ensures var bound := if past then target + 1 else target;
            lo <= Later(lo, target, past) && bound <= Later(lo, target, past)
            && (Later(lo, target, past) == lo || Later(lo, target, past) == bound)
  {
  }

  lemma LaterNoneBetween(q: Qry, ix: Index, lo: int, hi: int, target: int, past: bool)
    ensures lo <= hi ==> Later(lo, target, past) <= Later(hi, target, past)
    ensures NoneBetween(q, ix, lo, hi) ==> NoneBetween(q, ix, Later(lo, target, past), Later(hi, target, past))
  {
  }

  /** The bound after moving to `target`, or past it. */
  function Later(lo: int, target: int, past: bool): int {
    var bound := if past then target + 1 else target;
    if lo < bound then bound else lo
  }
}
