/** What ranked Boolean scores are: counts below SCORE, the smallest of an AND, the largest of an OR. */
module BooleanScores {
  import opened Wrappers
  import opened QueryTree
  import opened Semantics
  import OptimizerMeaning
  import LeafScores

  /** The leaves count positions. */
  lemma RankedLeafCounts(q: Qry, ix: Index, d: int)
    requires LeafScores.Leaf(q)
    ensures Score(q, ix, RankedBoolean, d) == Some(LeafScores.Tf(q, ix, d))
    ensures Score(q, ix, UnrankedBoolean, d) == Some(1.0)
  {
    LeafScores.LeafScored(q, ix, RankedBoolean, d);
    LeafScores.LeafScored(q, ix, UnrankedBoolean, d);
  }

  /** AND and OR have no score under BM25, SUM and WSUM none under the Boolean models; unranked scores are 1. */
  lemma OperatorsByModel(q: Qry, ix: Index, m: Model, d: int)
    requires q.Node? && !q.IsIop() && !q.op.SCORE?
    ensures m.BM25? == (q.op.AND? || q.op.OR?) ==> Score(q, ix, m, d) == None
    ensures m.UnrankedBoolean? && (q.op.AND? || q.op.OR?) ==> Score(q, ix, m, d) == Some(1.0)
  {
  }

  /** The score is the largest or the smallest among the matching arguments before the k-th. */
  ghost predicate Extreme(q: Qry, ix: Index, d: int, k: nat, s: real, largest: bool)
    requires q.Node? && k <= |q.args|
  {
    && (exists i :: 0 <= i < k && ArgScores(q, ix, d, i, s))
    && (forall i, x :: 0 <= i < k && ArgScores(q, ix, d, i, x) ==> if largest then x <= s else s <= x)
  }

  predicate ArgScores(q: Qry, ix: Index, d: int, i: nat, x: real)
    requires q.Node? && i < |q.args|
  {
    Matches(q.args[i], ix, d) && Score(q.args[i], ix, RankedBoolean, d) == Some(x)
  }

  lemma {:induction false} AndAccumulated(q: Qry, ix: Index, d: int, k: nat)
    requires q.Node? && q.op.AND? && 0 < k <= |q.args| && Accumulated(q, ix, RankedBoolean, d, k).Some?
    requires forall i :: 0 <= i < |q.args| ==> Matches(q.args[i], ix, d)
    ensures Extreme(q, ix, d, k, Accumulated(q, ix, RankedBoolean, d, k).value, false)
  {
    hide Matches, Score;
    var s := Accumulated(q, ix, RankedBoolean, d, k).value;
    var y := Score(q.args[k - 1], ix, RankedBoolean, d).value;
    assert ArgScores(q, ix, d, k - 1, y);
    if k > 1 {
      AndAccumulated(q, ix, d, k - 1);
      var before := Accumulated(q, ix, RankedBoolean, d, k - 1).value;
      var i :| 0 <= i < k - 1 && ArgScores(q, ix, d, i, before);
      assert ArgScores(q, ix, d, if y < before then k - 1 else i, s);
    }
  }

  /** An AND scores the smallest of its arguments' scores. */
  lemma AndIsSmallest(q: Qry, ix: Index, d: int)
    requires q.Node? && q.op.AND? && Matches(q, ix, d) && Score(q, ix, RankedBoolean, d).Some?
    ensures Extreme(q, ix, d, |q.args|, Score(q, ix, RankedBoolean, d).value, false)
    ensures forall i :: 0 <= i < |q.args| ==> Score(q.args[i], ix, RankedBoolean, d).Some?
  {
    AndAccumulated(q, ix, d, |q.args|);
    AllScores(q, ix, d, |q.args|);
  }

  lemma {:induction false} AllScores(q: Qry, ix: Index, d: int, k: nat)
    requires q.Node? && k <= |q.args| && Accumulated(q, ix, RankedBoolean, d, k).Some?
    ensures forall i :: 0 <= i < k && Matches(q.args[i], ix, d) ==> Score(q.args[i], ix, RankedBoolean, d).Some?
  {
    hide Matches, Score;
    if k > 0 {
      AllScores(q, ix, d, k - 1);
    }
  }

  lemma {:induction false} OrAccumulated(q: Qry, ix: Index, d: int, k: nat)
    requires q.Node? && q.op.OR? && k <= |q.args| && Accumulated(q, ix, RankedBoolean, d, k).Some?
    ensures var s := Accumulated(q, ix, RankedBoolean, d, k).value;
            if forall i :: 0 <= i < k ==> !Matches(q.args[i], ix, d) then s == 0.0 else Extreme(q, ix, d, k, s, true)
  {
    hide Matches, Score;
    if k > 0 {
      OrAccumulated(q, ix, d, k - 1);
      var before := Accumulated(q, ix, RankedBoolean, d, k - 1).value;
      if Matches(q.args[k - 1], ix, d) {
        var y := Score(q.args[k - 1], ix, RankedBoolean, d).value;
        OptimizerMeaning.RankedNonNegative(q.args[k - 1], ix, d);
        assert ArgScores(q, ix, d, k - 1, y);
        if i :| 0 <= i < k - 1 && ArgScores(q, ix, d, i, before) && y < before {
          assert ArgScores(q, ix, d, i, RMax(before, y));
        }
      } else if i :| 0 <= i < k - 1 && ArgScores(q, ix, d, i, before) {
        assert ArgScores(q, ix, d, i, before);
      }
    }
  }

  /** An OR scores the largest of its matching arguments' scores. */
  lemma OrIsLargest(q: Qry, ix: Index, d: int)
    requires q.Node? && q.op.OR? && Matches(q, ix, d) && Score(q, ix, RankedBoolean, d).Some?
    ensures Extreme(q, ix, d, |q.args|, Score(q, ix, RankedBoolean, d).value, true)
    ensures forall i :: 0 <= i < |q.args| && Matches(q.args[i], ix, d) ==>
              Score(q.args[i], ix, RankedBoolean, d).Some?
  {
    OrAccumulated(q, ix, d, |q.args|);
    AllScores(q, ix, d, |q.args|);
  }
}
