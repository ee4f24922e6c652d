/** Bags of words that also hold empty queries: dropping these and joining duplicates, both at once. */
module MixedBags {
  import opened Wrappers
  import opened QueryTree
  import opened Semantics
  import opened Optimizer
  import opened OptimizerLaws
  import opened OptimizerPruning
  import opened OptimizerMeaning
  import opened SumConversion
  import WsumGaps
  import opened Ranker
  import opened Search

  /** A SUM of scored terms and queries without terms, at least one of the former. */
  predicate MixedBag(q: Qry) {
    && q.Node? && q.op.SUM?
    && (forall i :: 0 <= i < |q.args| ==> ScoredTerm(q.args[i]) || !HasTerm(q.args[i]))
    && (exists i :: 0 <= i < |q.args| && ScoredTerm(q.args[i]))
  }

  function TermsOf(args: seq<Qry>): seq<Qry> {
    if args == [] then [] else (if ScoredTerm(args[0]) then [args[0]] else []) + TermsOf(args[1..])
  }

  /** The bag of words in it. */
  function BagIn(q: Qry): Qry
    requires q.Node?
  {
    Node(q.op, q.name, TermsOf(q.args), q.weights)
  }

  lemma TermsOfFirst(args: seq<Qry>)
    requires args != []
    ensures TermsOf(args) == (if ScoredTerm(args[0]) then [args[0]] else []) + TermsOf(args[1..])
  {
  }

  lemma {:induction false} TermsOfAppend(args: seq<Qry>, a: Qry)
    ensures TermsOf(args + [a]) == TermsOf(args) + (if ScoredTerm(a) then [a] else [])
  {
    hide ScoredTerm;
    if args == [] {
      assert args + [a] == [a] && [a][1..] == [];
      TermsOfFirst([a]);
    } else {
      assert (args + [a])[1..] == args[1..] + [a];
      TermsOfFirst(args);
      TermsOfFirst(args + [a]);
      hide TermsOf;
      TermsOfAppend(args[1..], a);
    }
  }

  lemma {:induction false} TermsOfAreScored(args: seq<Qry>)
    ensures forall i :: 0 <= i < |TermsOf(args)| ==> ScoredTerm(TermsOf(args)[i])
    ensures forall a :: a in TermsOf(args) <==> a in args && ScoredTerm(a)
  {
    hide ScoredTerm;
    if args != [] {
      TermsOfAreScored(args[1..]);
      assert args == [args[0]] + args[1..];
    }
  }

  // ----- Pruning a mixed bag

  lemma {:induction false} PrunedTerms(args: seq<Qry>)
    requires forall i :: 0 <= i < |args| ==> ScoredTerm(args[i]) || !HasTerm(args[i])
    ensures PrunedArgs(args) == TermsOf(args)
  {
    if args != [] {
      PrunedTerms(args[1..]);
      PruneKeepsTerms(args[0]);
      if ScoredTerm(args[0]) {
        ScoredTermPruned(args[0]);
      }
    }
  }

  lemma ScoredTermPruned(a: Qry)
    requires ScoredTerm(a)
    ensures HasTerm(a) && Prune(a) == Some(a) && WsumFree(a)
  {
    assert a.args == [a.args[0]] && a.args[1..] == [];
    assert HasTerm(a.args[0]);
    assert PrunedArgs(a.args) == [a.args[0]] + PrunedArgs([]) == a.args;
    assert Node(a.op, a.name, a.args, a.weights) == a;
  }

  lemma {:induction false} MixedArgsIntact(args: seq<Qry>, w: seq<nat>)
    requires |w| == |OptimizedArgs(args)|
    requires forall i :: 0 <= i < |args| ==> ScoredTerm(args[i]) || !HasTerm(args[i])
    ensures IntactArgs(args, w)
    decreases |args|
  {
    hide ScoredTerm, HasTerm, Intact;
    if args != [] {
      PruneKeepsTerms(args[0]);
      if Optimize(args[0]).None? {
        MixedArgsIntact(args[1..], w);
      } else {
        ScoredTermPruned(args[0]);
        WsumFreeIntact(args[0]);
        MixedArgsIntact(args[1..], w[1..]);
      }
    }
  }

  lemma TermsAreBag(q: Qry)
    requires MixedBag(q)
    ensures HasTerm(q) && BagOfWords(BagIn(q))
  {
    hide ScoredTerm;
    var i :| 0 <= i < |q.args| && ScoredTerm(q.args[i]);
    TermsOfAreScored(q.args);
    assert q.args[i] in TermsOf(q.args);
    ScoredTermPruned(q.args[i]);
  }

  lemma MixedBagIntact(q: Qry)
    requires MixedBag(q)
    ensures Intact(q)
  {
    hide ScoredTerm, HasTerm, Optimize, OptimizedArgs, Staying, IntactArgs;
    MixedArgsIntact(q.args, Staying(q.op, OptimizedArgs(q.args)));
  }

  lemma MixedBagIsPruned(q: Qry)
    requires MixedBag(q)
    ensures Prune(q) == Some(BagIn(q))
  {
    TermsAreBag(q);
    PrunedTerms(q.args);
    hide ScoredTerm, HasTerm, PrunedArgs, TermsOf;
  }

  /** Optimizing it is optimizing the bag of words in it. */
  lemma MixedBagPruned(q: Qry)
    requires MixedBag(q) && WellTyped(q)
    ensures BagOfWords(BagIn(q)) && Optimize(q) == Optimize(BagIn(q))
  {
    hide MixedBag, Optimize, Prune, HasWeights, WellTyped, HasTerm, Intact, BagOfWords, BagIn;
    TermsAreBag(q);
    MixedBagIntact(q);
    MixedBagIsPruned(q);
    TypedHasWeights(q);
    PruneExactly(q);
  }

  // ----- The score of a mixed bag

  /** The scores of the matching arguments, added up; None where one has no score. */
  function SumUp(args: seq<Qry>, ix: Index, m: Model, d: int): Option<real> {
    if args == [] then Some(0.0)
    else Added(SumUp(args[..|args| - 1], ix, m, d), args[|args| - 1], ix, m, d)
  }

  function Added(sum: Option<real>, last: Qry, ix: Index, m: Model, d: int): Option<real> {
    match sum
    case None => None
    case Some(x) =>
      if !Matches(last, ix, d) then Some(x)
      else
        match Score(last, ix, m, d)
        case None => None
        case Some(y) => Some(x + y)
  }

  lemma {:induction false} AccumulatedIsSumUp(q: Qry, ix: Index, m: Model, d: int, k: nat)
    requires q.Node? && q.op.SUM? && k <= |q.args|
    ensures Accumulated(q, ix, m, d, k) == SumUp(q.args[..k], ix, m, d)
  {
    hide Matches, Score;
    if k > 0 {
      AccumulatedIsSumUp(q, ix, m, d, k - 1);
      assert q.args[..k][..k - 1] == q.args[..k - 1];
    }
  }

  lemma {:induction false} SumUpTerms(args: seq<Qry>, ix: Index, m: Model, d: int)
    requires forall i :: 0 <= i < |args| ==> ScoredTerm(args[i]) || !HasTerm(args[i])
    ensures SumUp(TermsOf(args), ix, m, d) == SumUp(args, ix, m, d)
    decreases |args|
  {
    hide Matches, Score, ScoredTerm, HasTerm, SumUp, TermsOf;
    if args == [] {
      NoTerms();
    } else {
      var rest, last := args[..|args| - 1], args[|args| - 1];
      assert args == rest + [last];
      SumUpTerms(rest, ix, m, d);
      TermsOfAppend(rest, last);
      SumUpLast(rest, last, ix, m, d);
      SumUpLast(TermsOf(rest), last, ix, m, d);
      if !ScoredTerm(last) {
        WsumGaps.TermlessMatchesNothing(last, ix, d);
        assert TermsOf(rest) + [] == TermsOf(rest);
      }
    }
  }

  lemma NoTerms()
    ensures TermsOf([]) == []
  {
  }

  lemma SumUpLast(args: seq<Qry>, last: Qry, ix: Index, m: Model, d: int)
    ensures SumUp(args + [last], ix, m, d) == Added(SumUp(args, ix, m, d), last, ix, m, d)
  {
    hide Matches, Score;
    assert (args + [last])[..|args|] == args;
  }

  lemma SumScoreIsSumUp(q: Qry, ix: Index, m: Model, d: int)
    requires q.Node? && q.op.SUM? && m.BM25?
    ensures Score(q, ix, m, d) == SumUp(q.args, ix, m, d)
  {
    AccumulatedIsSumUp(q, ix, m, d, |q.args|);
    assert q.args[..|q.args|] == q.args;
  }

  lemma MixedMatches(q: Qry, ix: Index, d: int)
    requires MixedBag(q)
    ensures Matches(q, ix, d) == Matches(BagIn(q), ix, d)
  {
    var p := BagIn(q);
    TermsOfAreScored(q.args);
    MatchesSomeArg(q, ix, d);
    MatchesSomeArg(p, ix, d);
    hide Matches, ScoredTerm, HasTerm;
    if i :| 0 <= i < |q.args| && Matches(q.args[i], ix, d) {
      if !ScoredTerm(q.args[i]) {
        WsumGaps.TermlessMatchesNothing(q.args[i], ix, d);
      }
      assert q.args[i] in p.args;
      var j :| 0 <= j < |p.args| && p.args[j] == q.args[i];
      assert Matches(p.args[j], ix, d);
    }
    if j :| 0 <= j < |p.args| && Matches(p.args[j], ix, d) {
      assert p.args[j] in q.args;
      var i :| 0 <= i < |q.args| && q.args[i] == p.args[j];
      assert Matches(q.args[i], ix, d);
    }
  }

  /** Empty queries in a bag of words change no match and no score. */
  lemma MixedBagAgrees(q: Qry, ix: Index, m: Model)
    requires MixedBag(q) && m.BM25?
    ensures Agree(BagIn(q), q, ix, m)
    ensures forall d :: Score(BagIn(q), ix, m, d) == Score(q, ix, m, d)
  {
    forall d ensures Matches(q, ix, d) == Matches(BagIn(q), ix, d) && Score(BagIn(q), ix, m, d) == Score(q, ix, m, d) {
      MixedMatches(q, ix, d);
      SumScoreIsSumUp(q, ix, m, d);
      SumScoreIsSumUp(BagIn(q), ix, m, d);
      SumUpTerms(q.args, ix, m, d);
    }
    hide Matches, Score;
  }

  /**
   A bag of words that also holds empty queries, and words more than once, keeps its whole ranking: every score
   is divided by one constant, that of the bag without the empty queries.
   */
  lemma MixedBagKeepsRanking(q: Qry, ix: Index, m: Model, n: nat, written: seq<Entry>)
    requires ValidIndex(ix) && WellTyped(q) && MixedBag(q) && m.BM25?
    requires Answers(q, ix, m, n, Ok(written))
    ensures BagOfWords(BagIn(q)) && Optimize(q).Some?
    ensures Answers(Optimize(q).value, ix, m, n, Ok(Scaled(written, Divisor(BagIn(q)))))
  {
    MixedBagPruned(q);
    MixedBagAgrees(q, ix, m);
    assert AllScored(q, ix, m);
    hide Optimize, Answers, MixedBag, Matches, Score, BagOfWords, Divisor;
    assert AllScored(BagIn(q), ix, m);
    AgreeingAnswers(BagIn(q), q, ix, m, n, Ok(written));
    BagKeepsRanking(BagIn(q), ix, m, n, written);
  }
}
