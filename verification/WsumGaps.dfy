/**
 What optimizing does to the weights of a WSUM that loses arguments: their weights stay in its list, so those
 of later arguments move, and a single argument that is left loses its weight altogether.
 */
module WsumGaps {
  import opened Wrappers
  import opened Sequences
  import opened InvertedLists
  import opened QueryTree
  import opened Semantics
  import opened Optimizer
  import opened OptimizerLaws
  import opened OptimizerPruning
  import opened OptimizerMeaning
  import opened SumConversion

  // ----- Which arguments survive

  /** The arguments that survive optimization, by index. */
  function Survivors(args: seq<Qry>): (r: seq<nat>)
    ensures |r| <= |args|
    ensures forall p :: 0 <= p < |r| ==> p <= r[p] < |args| && Optimize(args[r[p]]).Some?
    ensures forall p, r' :: 0 <= p < r' < |r| ==> r[p] < r[r']
    ensures forall i :: 0 <= i < |args| && Optimize(args[i]).Some? ==> i in r
  {
    if args == [] then []
    else
      var last := |args| - 1;
      var before := Survivors(args[..last]);
      assert forall i :: 0 <= i < last ==> args[..last][i] == args[i];
      if Optimize(args[last]).Some? then before + [last] else before
  }

  lemma {:induction false} OptimizedArgsAppend(args: seq<Qry>, a: Qry)
    ensures OptimizedArgs(args + [a]) ==
            OptimizedArgs(args) + match Optimize(a) case None => [] case Some(x) => [x]
  {
    if args == [] {
      assert [a][1..] == [];
    } else {
      assert (args + [a])[1..] == args[1..] + [a];
      OptimizedArgsAppend(args[1..], a);
    }
  }

  lemma NothingOptimized()
    ensures OptimizedArgs([]) == []
  {
  }

  lemma {:induction false} SurvivorsAreOptimized(args: seq<Qry>)
    ensures |OptimizedArgs(args)| == |Survivors(args)|
    ensures forall p :: 0 <= p < |Survivors(args)| ==>
            Optimize(args[Survivors(args)[p]]) == Some(OptimizedArgs(args)[p])
  {
    hide Optimize, OptimizedArgs, Survivors;
    SurvivorsStep(args);
    if args == [] {
      NothingOptimized();
    } else {
      var last := |args| - 1;
      SurvivorsAreOptimized(args[..last]);
      assert args == args[..last] + [args[last]];
      OptimizedArgsAppend(args[..last], args[last]);
      var s := Survivors(args[..last]);
      forall p | 0 <= p < |s| ensures args[..last][s[p]] == args[s[p]] {
      }
    }
  }

  /** Every surviving argument has, at its new index, a weight equal to the one it was given. */
  ghost predicate WeightsStay(args: seq<Qry>, weights: seq<real>)
    requires |weights| == |args|
  {
    forall p :: 0 <= p < |Survivors(args)| ==> weights[p] == weights[Survivors(args)[p]]
  }

  /** Different weights stay with their arguments exactly when only trailing arguments vanish. */
  lemma WeightsStayExactly(args: seq<Qry>, weights: seq<real>)
    requires |weights| == |args|
    requires forall i, j :: 0 <= i < j < |weights| ==> weights[i] != weights[j]
    ensures WeightsStay(args, weights) <==>
            forall i, j :: 0 <= i < j < |args| && Optimize(args[i]).None? ==> Optimize(args[j]).None?
  {
    hide Optimize, WeightsStay;
    if WeightsStay(args, weights) {
      StayedMeansTrailing(args, weights);
    }
    if forall i, j :: 0 <= i < j < |args| && Optimize(args[i]).None? ==> Optimize(args[j]).None? {
      TrailingMeansStayed(args, weights);
    }
  }

  lemma StayedMeansTrailing(args: seq<Qry>, weights: seq<real>)
    requires |weights| == |args| && WeightsStay(args, weights)
    requires forall i, j :: 0 <= i < j < |weights| ==> weights[i] != weights[j]
    ensures forall i, j :: 0 <= i < j < |args| && Optimize(args[i]).None? ==> Optimize(args[j]).None?
  {
    hide Optimize;
    var s := Survivors(args);
    forall p | 0 <= p < |s| ensures s[p] == p {
      assert weights[p] == weights[s[p]];
    }
    forall i, j | 0 <= i < j < |args| && Optimize(args[j]).Some? ensures Optimize(args[i]).Some? {
      var p :| 0 <= p < |s| && s[p] == j;
      assert s[i] == i;
    }
  }

  lemma TrailingMeansStayed(args: seq<Qry>, weights: seq<real>)
    requires |weights| == |args|
    requires forall i, j :: 0 <= i < j < |args| && Optimize(args[i]).None? ==> Optimize(args[j]).None?
    ensures WeightsStay(args, weights)
  {
    hide Optimize;
    var s := Survivors(args);
    forall p | 0 <= p < |s| ensures weights[p] == weights[s[p]] {
      assert Optimize(args[s[p]]).Some?;
      PrefixSurvives(args, p);
    }
  }

  /** If everything up to a survivor survives, it keeps its index. */
  lemma {:induction false} PrefixSurvives(args: seq<Qry>, p: nat)
    requires p < |Survivors(args)| && forall i :: 0 <= i <= Survivors(args)[p] ==> Optimize(args[i]).Some?
    ensures Survivors(args)[p] == p
  {
    hide Optimize;
    var s := Survivors(args);
    if p == 0 {
      assert 0 in s;
    } else {
      PrefixSurvives(args, p - 1);
      assert p in s;
    }
  }

  // ----- Queries without terms

  lemma {:induction false} TermlessPositions(q: Qry, ix: Index, d: int)
    requires !HasTerm(q)
    ensures Positions(q, ix, d) == []
    decreases q
  {
    forall i | 0 <= i < |q.args| ensures ArgPositions(q, ix, d)[i] == [] {
      TermlessPositions(q.args[i], ix, d);
    }
    PositionsOfNode(q, ix, d);
    CombineOfNothing(q.op, ArgPositions(q, ix, d));
  }

  /** A query without terms matches nothing. */
  lemma {:induction false} TermlessMatchesNothing(q: Qry, ix: Index, d: int)
    requires !HasTerm(q)
    ensures !Matches(q, ix, d)
    decreases q
  {
    hide Positions;
    if q.IsIop() {
      TermlessPositions(q, ix, d);
    } else {
      forall i | 0 <= i < |q.args| ensures !Matches(q.args[i], ix, d) {
        TermlessMatchesNothing(q.args[i], ix, d);
      }
      assert q.args != [] ==> !Matches(q.args[0], ix, d);
    }
  }

  // ----- The score of a WSUM, by its surviving arguments

  function Pick<T>(s: seq<T>, at: seq<nat>): (r: seq<T>)
    requires forall p :: 0 <= p < |at| ==> at[p] < |s|
    ensures |r| == |at| && forall p :: 0 <= p < |r| ==> r[p] == s[at[p]]
  {
    seq(|at|, p requires 0 <= p < |at| => s[at[p]])
  }

  lemma {:induction false} WeightedSurvivors(w: seq<real>, args: seq<Qry>, ix: Index, m: Model, d: int)
    requires |w| == |args|
    ensures Weighted(w, args, ix, m, d) == Weighted(Pick(w, Survivors(args)), Pick(args, Survivors(args)), ix, m, d)
    decreases |args|
  {
    hide Optimize, Matches, Score, Times, Val, Survivors, Weighted;
    SurvivorsStep(args);
    if args == [] {
      assert w == [] && Pick(w, Survivors(args)) == [] && Pick(args, Survivors(args)) == [];
    } else {
      var last := |args| - 1;
      var s := Survivors(args[..last]);
      WeightedSurvivors(w[..last], args[..last], ix, m, d);
      PickFront(w, s);
      PickFront(args, s);
      WeightedLast(w, args, ix, m, d);
      if Optimize(args[last]).Some? {
        WeightedAppend(Pick(w, s), Pick(args, s), w[last], args[last], ix, m, d);
      } else {
        VanishedIsWorthless(args[last], ix, m, d);
        TimesNothing(w[last]);
        assert Survivors(args) == s;
      }
    }
  }

  lemma SurvivorsStep(args: seq<Qry>)
    ensures args == [] ==> Survivors(args) == []
    ensures args != [] ==>
              var last := |args| - 1;
              Survivors(args) == Survivors(args[..last]) + (if Optimize(args[last]).Some? then [last] else [])
  {
    hide Optimize;
  }

  lemma PickFront<T>(s: seq<T>, at: seq<nat>)
    requires s != [] && forall p :: 0 <= p < |at| ==> at[p] < |s| - 1
    ensures Pick(s[..|s| - 1], at) == Pick(s, at)
    ensures Pick(s, at + [|s| - 1]) == Pick(s, at) + [s[|s| - 1]]
  {
  }

  lemma WeightedLast(w: seq<real>, args: seq<Qry>, ix: Index, m: Model, d: int)
    requires |w| == |args| && args != []
    ensures var last := |args| - 1;
            Weighted(w, args, ix, m, d)
              == Weighted(w[..last], args[..last], ix, m, d) + Times(w[last], Val(args[last], ix, m, d))
  {
    hide Val, Times;
  }

  lemma VanishedIsWorthless(a: Qry, ix: Index, m: Model, d: int)
    requires Optimize(a).None?
    ensures !Matches(a, ix, d) && Val(a, ix, m, d) == 0.0
  {
    hide Optimize, Matches, Score;
    PruneKeepsTerms(a);
    TermlessMatchesNothing(a, ix, d);
  }

  lemma TimesNothing(x: real)
    ensures Times(x, 0.0) == 0.0
  {
  }

  lemma {:induction false} WeightedSameVals(w: seq<real>, a: seq<Qry>, b: seq<Qry>, ix: Index, m: Model, d: int)
    requires |w| == |a| == |b| && forall p :: 0 <= p < |a| ==> Val(a[p], ix, m, d) == Val(b[p], ix, m, d)
    ensures Weighted(w, a, ix, m, d) == Weighted(w, b, ix, m, d)
  {
    hide Val, Times;
    if a != [] {
      var last := |a| - 1;
      WeightedSameVals(w[..last], a[..last], b[..last], ix, m, d);
    }
  }

  lemma {:induction false} AccumulatedScored(q: Qry, ix: Index, m: Model, d: int, k: nat)
    requires q.Node? && k <= |q.args| && Accumulated(q, ix, m, d, k).Some?
    ensures forall i :: 0 <= i < k && Matches(q.args[i], ix, d) ==> Score(q.args[i], ix, m, d).Some?
  {
    hide Matches, Score;
    if k > 0 {
      AccumulatedScored(q, ix, m, d, k - 1);
    }
  }

  lemma WsumScored(q: Qry, ix: Index, m: Model, d: int)
    requires q.Node? && q.op.WSUM? && m.BM25? && Score(q, ix, m, d).Some?
    ensures Scored(q.args, ix, m, d)
  {
    AccumulatedScored(q, ix, m, d, |q.args|);
    hide Matches;
  }

  /** A WSUM with a weight for each argument, whose surviving arguments keep their meaning when optimized. */
  ghost predicate SoundArguments(q: Qry, ix: Index, m: Model) {
    && q.Node? && q.op.WSUM? && |q.weights| == |q.args| && m.BM25? && OptimizedArgs(q.args) != []
    && (forall i :: 0 <= i < |q.args| && Optimize(q.args[i]).Some? ==>
          !q.args[i].IsIop() && Agree(q.args[i], Optimize(q.args[i]).value, ix, m))
  }

  /** Sound trees are such arguments. */
  lemma SoundTreesAreSoundArguments(q: Qry, ix: Index, m: Model)
    requires ValidIndex(ix) && q.Node? && q.op.WSUM? && |q.weights| == |q.args| && m.BM25?
    requires WellTyped(q) && HasTerm(q)
    requires forall i :: 0 <= i < |q.args| && HasTerm(q.args[i]) ==>
               NoEmptyNode(q.args[i]) && Supported(q.args[i], m) && Sound(q.args[i])
    ensures SoundArguments(q, ix, m)
  {
    hide Agree, NoEmptyNode, Supported, Sound;
    PrunedArgsKeepTerms(q.args);
    forall i | 0 <= i < |q.args| && Optimize(q.args[i]).Some?
      ensures !q.args[i].IsIop() && Agree(q.args[i], Optimize(q.args[i]).value, ix, m)
    {
      PruneKeepsTerms(q.args[i]);
      assert WellTyped(q.Args()[i]);
      OptimizeAgrees(q.args[i], ix, m);
    }
  }

  lemma AgreeingVal(a: Qry, b: Qry, ix: Index, m: Model, d: int)
    requires !a.IsIop() && Agree(a, b, ix, m) && (Matches(a, ix, d) ==> Score(a, ix, m, d).Some?)
    ensures Val(a, ix, m, d) == Val(b, ix, m, d)
    ensures Matches(b, ix, d) ==> Score(b, ix, m, d) == Score(a, ix, m, d)
  {
    hide Matches, Score;
  }

  lemma SurvivorVals(q: Qry, ix: Index, m: Model, d: int)
    requires SoundArguments(q, ix, m) && Scored(q.args, ix, m, d)
    ensures var s, a := Survivors(q.args), OptimizedArgs(q.args);
            && |a| == |s| && Scored(a, ix, m, d)
            && forall p :: 0 <= p < |s| ==> Val(a[p], ix, m, d) == Val(q.args[s[p]], ix, m, d)
  {
    hide Optimize, OptimizedArgs, Matches, Score, Agree, Val;
    var s, a := Survivors(q.args), OptimizedArgs(q.args);
    SurvivorsAreOptimized(q.args);
    forall p | 0 <= p < |s|
      ensures Val(a[p], ix, m, d) == Val(q.args[s[p]], ix, m, d)
              && (Matches(a[p], ix, d) ==> Score(a[p], ix, m, d).Some?)
    {
      AgreeingVal(q.args[s[p]], a[p], ix, m, d);
      AgreeingMatch(q.args[s[p]], a[p], ix, m, d);
    }
  }

  lemma AgreeingMatch(a: Qry, b: Qry, ix: Index, m: Model, d: int)
    requires Agree(a, b, ix, m)
    ensures Matches(a, ix, d) == Matches(b, ix, d)
  {
  }

  /** The score of the WSUM: every surviving argument counts with the weight it was given. */
  lemma GivenScore(q: Qry, ix: Index, m: Model, d: int)
    requires SoundArguments(q, ix, m) && Score(q, ix, m, d).Some?
    ensures |OptimizedArgs(q.args)| == |Survivors(q.args)|
    ensures Score(q, ix, m, d)
            == Some(Ratio(Weighted(Pick(q.weights, Survivors(q.args)), OptimizedArgs(q.args), ix, m, d),
                          WeightSum(q.weights)))
  {
    WsumScored(q, ix, m, d);
    WsumScore(q, ix, m, d);
    assert q.weights[..|q.args|] == q.weights;
    SurvivorVals(q, ix, m, d);
    var s, a := Survivors(q.args), OptimizedArgs(q.args);
    hide SoundArguments, Matches, Score, Val, Weighted, WeightSum, Scored, Optimize, OptimizedArgs, Survivors;
    WeightedSurvivors(q.weights, q.args, ix, m, d);
    WeightedSameVals(Pick(q.weights, s), Pick(q.args, s), a, ix, m, d);
  }

  lemma OptimizedWsum(q: Qry)
    requires q.Node? && q.op.WSUM? && OptimizedArgs(q.args) != []
    ensures var a := OptimizedArgs(q.args);
            Optimize(q) == Some(if |a| == 1 then a[0] else Node(WSUM, q.name, a, q.weights))
  {
    FinishedIsOptimized(q);
  }

  /** The score after optimizing with two or more arguments left: they count with the first weights of the list. */
  lemma MovedScore(q: Qry, ix: Index, m: Model, d: int)
    requires SoundArguments(q, ix, m) && Score(q, ix, m, d).Some? && |OptimizedArgs(q.args)| >= 2
    ensures var a := OptimizedArgs(q.args);
            && |a| <= |q.weights| && Optimize(q).Some?
            && Score(Optimize(q).value, ix, m, d)
               == Some(Ratio(Weighted(q.weights[..|a|], a, ix, m, d), WeightSum(q.weights)))
  {
    OptimizedWsum(q);
    WsumScored(q, ix, m, d);
    SurvivorVals(q, ix, m, d);
    var o := Optimize(q).value;
    hide Matches, Score, Val, Weighted, WeightSum, Scored, Optimize, OptimizedArgs, Survivors;
    WsumScore(o, ix, m, d);
  }

  /** With two or more arguments left and their weights in place, optimizing keeps the score. */
  lemma StayingWeightsKeepScore(q: Qry, ix: Index, m: Model, d: int)
    requires SoundArguments(q, ix, m) && Score(q, ix, m, d).Some? && |OptimizedArgs(q.args)| >= 2
    requires WeightsStay(q.args, q.weights) || WeightSum(q.weights) <= 0.0
    ensures Optimize(q).Some? && Score(Optimize(q).value, ix, m, d) == Score(q, ix, m, d)
  {
    GivenScore(q, ix, m, d);
    MovedScore(q, ix, m, d);
    hide SoundArguments, Score, Weighted, WeightSum, Optimize, OptimizedArgs, Survivors, WeightsStay, Pick;
    if WeightsStay(q.args, q.weights) {
      StayedWeights(q.args, q.weights);
    }
  }

  lemma StayedWeights(args: seq<Qry>, weights: seq<real>)
    requires |weights| == |args| && WeightsStay(args, weights)
    ensures weights[..|Survivors(args)|] == Pick(weights, Survivors(args))
  {
    hide Survivors;
  }

  /**
   With one argument left its weight is dropped: a score is kept if and only if it is 0 or the weight was the
   total.
   */
  lemma SingleWeightKeepsScoreExactly(q: Qry, ix: Index, m: Model, d: int)
    requires SoundArguments(q, ix, m) && Score(q, ix, m, d).Some? && Matches(q, ix, d) && |OptimizedArgs(q.args)| == 1
    ensures Optimize(q).Some? && |Survivors(q.args)| == 1 && Score(Optimize(q).value, ix, m, d).Some?
    ensures var o, w := Score(Optimize(q).value, ix, m, d).value, q.weights[Survivors(q.args)[0]];
            Score(q, ix, m, d) == Some(o) <==> o == 0.0 || (WeightSum(q.weights) > 0.0 && w == WeightSum(q.weights))
  {
    GivenScore(q, ix, m, d);
    OptimizedWsum(q);
    WsumScored(q, ix, m, d);
    SurvivorVals(q, ix, m, d);
    SingleSurvivorMatches(q, ix, m, d);
    hide SoundArguments, Score, WeightSum, Optimize, OptimizedArgs, Survivors, Matches, Scored;
    var a, w := OptimizedArgs(q.args)[0], q.weights[Survivors(q.args)[0]];
    assert OptimizedArgs(q.args) == [a] && Pick(q.weights, Survivors(q.args)) == [w];
    WeightedOne(w, a, ix, m, d);
    RatioOf(w, Val(a, ix, m, d), WeightSum(q.weights));
  }

  lemma WeightedOne(w: real, a: Qry, ix: Index, m: Model, d: int)
    ensures Weighted([w], [a], ix, m, d) == Times(w, Val(a, ix, m, d))
  {
    hide Val, Times;
    assert [w][..0] == [] && [a][..0] == [];
  }

  lemma RatioOf(w: real, v: real, total: real)
    ensures Ratio(Times(w, v), total) == v <==> v == 0.0 || (total > 0.0 && w == total)
  {
    if total > 0.0 {
      var r := w * v / total;
      assert r * total == w * v;
      if r == v {
        assert (w - total) * v == 0.0;
      }
    }
  }

  lemma SingleSurvivorMatches(q: Qry, ix: Index, m: Model, d: int)
    requires SoundArguments(q, ix, m) && Matches(q, ix, d) && |OptimizedArgs(q.args)| == 1
    ensures Matches(OptimizedArgs(q.args)[0], ix, d)
  {
    var i :| 0 <= i < |q.args| && Matches(q.args[i], ix, d);
    hide Optimize, OptimizedArgs, Matches, Agree;
    SurvivorsAreOptimized(q.args);
    if Optimize(q.args[i]).None? {
      VanishedIsWorthless(q.args[i], ix, m, d);
    } else {
      assert i in Survivors(q.args);
      AgreeingMatch(q.args[i], Optimize(q.args[i]).value, ix, m, d);
    }
  }

  // ----- Flat queries: exactly when every collection is scored the same

  /** A WSUM whose arguments are different scored terms and queries without terms, at least one of the former. */
  predicate FlatWsum(q: Qry) {
    && q.Node? && q.op.WSUM? && |q.weights| == |q.args|
    && (forall i :: 0 <= i < |q.args| ==> ScoredTerm(q.args[i]) || !HasTerm(q.args[i]))
    && (forall i, j :: 0 <= i < j < |q.args| && ScoredTerm(q.args[i]) && ScoredTerm(q.args[j]) ==>
          q.args[i].args[0] != q.args[j].args[0])
    && (exists i :: 0 <= i < |q.args| && ScoredTerm(q.args[i]))
  }

  /**
   The surviving weights stay in place, or there is no positive total and every score is 0; a single survivor
   must have had the whole weight.
   */
  ghost predicate KeepsWeights(args: seq<Qry>, weights: seq<real>)
    requires |weights| == |args|
  {
    var s, total := Survivors(args), WeightSum(weights);
    if |s| == 1 then total > 0.0 && weights[s[0]] == total else total <= 0.0 || WeightsStay(args, weights)
  }

  lemma TermOrNothing(a: Qry)
    requires ScoredTerm(a) || !HasTerm(a)
    ensures Optimize(a) == if ScoredTerm(a) then Some(a) else None
  {
    if ScoredTerm(a) {
      ScoredTermNormal(a);
      NormalIsFixed(a);
    } else {
      PruneKeepsTerms(a);
    }
  }

  lemma AgreesWithItself(a: Qry, ix: Index, m: Model)
    ensures Agree(a, a, ix, m)
  {
    hide Matches, Score, Positions;
  }

  lemma FlatArguments(q: Qry, ix: Index, m: Model)
    requires FlatWsum(q) && m.BM25?
    ensures SoundArguments(q, ix, m)
    ensures var s := Survivors(q.args);
            && s != [] && OptimizedArgs(q.args) == Pick(q.args, s)
            && (forall i :: 0 <= i < |q.args| ==> (i in s <==> ScoredTerm(q.args[i])))
  {
    hide Optimize, OptimizedArgs, Agree, Survivors, HasTerm;
    FlatSurvivors(q);
    forall i | 0 <= i < |q.args| && Optimize(q.args[i]).Some?
      ensures !q.args[i].IsIop() && Agree(q.args[i], Optimize(q.args[i]).value, ix, m)
    {
      TermOrNothing(q.args[i]);
      AgreesWithItself(q.args[i], ix, m);
    }
  }

  lemma FlatSurvivors(q: Qry)
    requires FlatWsum(q)
    ensures var s := Survivors(q.args);
            && s != [] && OptimizedArgs(q.args) == Pick(q.args, s)
            && (forall i :: 0 <= i < |q.args| ==> (i in s <==> ScoredTerm(q.args[i])))
  {
    hide Optimize, OptimizedArgs, Survivors, HasTerm, ScoredTerm;
    SurvivorsAreOptimized(q.args);
    var s := Survivors(q.args);
    forall i | 0 <= i < |q.args|
      ensures Optimize(q.args[i]) == if ScoredTerm(q.args[i]) then Some(q.args[i]) else None
    {
      TermOrNothing(q.args[i]);
    }
    var i :| 0 <= i < |q.args| && ScoredTerm(q.args[i]);
    assert i in s;
    assert OptimizedArgs(q.args) == Pick(q.args, s);
  }

  /** A collection of one document that holds only this term; as often as needed for BM25 not to divide by zero. */
  function OnlyTerm(t: Qry, m: Model): (ix: Index)
    requires t.Term? && m.BM25?
    ensures ValidIndex(ix)
  {
    Index(1, map[(t.field, t.term) := [Posting(0, if m.k1 == -1.0 then [0, 1] else [0])]],
          (f, d) => 0, f => 0, f => 0, d => "doc", x => 1.0)
  }

  lemma OnlyTermMatches(a: Qry, t: Qry, m: Model)
    requires ScoredTerm(a) && t.Term? && m.BM25?
    ensures Matches(a, OnlyTerm(t, m), 0) <==> a.args[0] == t
  {
    var ix := OnlyTerm(t, m);
    assert Positions(a.args[0], ix, 0) == PositionsIn(TermList(ix, a.args[0].term, a.args[0].field), 0);
    if a.args[0] != t {
      assert TermList(ix, a.args[0].term, a.args[0].field) == [];
    }
  }

  lemma OnlyTermScore(a: Qry, m: Model)
    requires ScoredTerm(a) && m.BM25?
    ensures var r := Score(a, OnlyTerm(a.args[0], m), m, 0); r.Some? && r.value != 0.0
  {
    var t := a.args[0];
    var ix := OnlyTerm(t, m);
    var tf := |Positions(t, ix, 0)| as real;
    assert tf == if m.k1 == -1.0 then 2.0 else 1.0;
    assert Score(a, ix, m, 0) == LeafScore(t, ix, m, 0);
    assert AvgDocLen(ix, FieldName(t)) == 0.0 && Idf(ix, Df(t, ix)) == 1.0;
    QuotientNotZero(tf, tf + m.k1);
  }

  lemma QuotientNotZero(x: real, y: real)
    requires x != 0.0 && y != 0.0
    ensures x / y != 0.0
  {
    assert x / y * y == x;
  }

  lemma {:induction false} WeightedSingleOut(w: seq<real>, args: seq<Qry>, p: nat, ix: Index, m: Model, d: int)
    requires |w| == |args| && p < |args|
    requires forall i :: 0 <= i < |args| && i != p ==> Val(args[i], ix, m, d) == 0.0
    ensures Weighted(w, args, ix, m, d) == Times(w[p], Val(args[p], ix, m, d))
    decreases |args|
  {
    hide Val, Times, Weighted;
    var last := |args| - 1;
    WeightedLast(w, args, ix, m, d);
    if p == last {
      WeightedZero(w[..last], args[..last], ix, m, d);
    } else {
      TimesNothing(w[last]);
      WeightedSingleOut(w[..last], args[..last], p, ix, m, d);
    }
  }

  lemma {:induction false} WeightedZero(w: seq<real>, args: seq<Qry>, ix: Index, m: Model, d: int)
    requires |w| == |args| && forall i :: 0 <= i < |args| ==> Val(args[i], ix, m, d) == 0.0
    ensures Weighted(w, args, ix, m, d) == 0.0
    decreases |args|
  {
    hide Val, Times;
    if args != [] {
      var last := |args| - 1;
      TimesNothing(w[last]);
      WeightedZero(w[..last], args[..last], ix, m, d);
    }
  }

  /** In a collection that holds only one of its terms, a flat WSUM scores that term alone. */
  lemma OnlyTermValues(q: Qry, m: Model, i: nat)
    requires FlatWsum(q) && m.BM25? && i < |q.args| && ScoredTerm(q.args[i])
    ensures var ix := OnlyTerm(q.args[i].args[0], m);
            && Matches(q, ix, 0) && Scored(q.args, ix, m, 0) && Val(q.args[i], ix, m, 0) != 0.0
            && forall j :: 0 <= j < |q.args| && j != i ==> Val(q.args[j], ix, m, 0) == 0.0
  {
    var t := q.args[i].args[0];
    var ix := OnlyTerm(t, m);
    forall j | 0 <= j < |q.args| ensures Matches(q.args[j], ix, 0) <==> j == i {
      if ScoredTerm(q.args[j]) {
        OnlyTermMatches(q.args[j], t, m);
        assert j < i ==> q.args[j].args[0] != q.args[i].args[0];
        assert i < j ==> q.args[i].args[0] != q.args[j].args[0];
      } else {
        TermlessMatchesNothing(q.args[j], ix, 0);
      }
    }
    OnlyTermScore(q.args[i], m);
    assert Matches(q, ix, 0);
    hide Matches, Score;
  }

  lemma RatiosDiffer(x: real, y: real, v: real, total: real)
    requires x != y && v != 0.0 && total > 0.0
    ensures Ratio(Times(x, v), total) != Ratio(Times(y, v), total)
  {
    ProductNotZero(x - y, v);
    var r, s := x * v / total, y * v / total;
    assert r * total == x * v && s * total == y * v;
    assert (r - s) * total == (x - y) * v;
  }

  lemma ProductNotZero(x: real, y: real)
    requires x != 0.0 && y != 0.0
    ensures x * y != 0.0
  {
  }

  /** Where a weight moved, the collection of that argument's term alone is scored differently. */
  lemma MovedWeightShows(q: Qry, m: Model, p: nat)
    requires FlatWsum(q) && m.BM25? && |Survivors(q.args)| >= 2 && p < |Survivors(q.args)|
    requires WeightSum(q.weights) > 0.0 && q.weights[p] != q.weights[Survivors(q.args)[p]]
    ensures var i := Survivors(q.args)[p];
            && ScoredTerm(q.args[i]) && Optimize(q).Some?
            && var ix := OnlyTerm(q.args[i].args[0], m);
               && Matches(q, ix, 0) && Score(q, ix, m, 0).Some?
               && Score(Optimize(q).value, ix, m, 0) != Score(q, ix, m, 0)
  {
    var s := Survivors(q.args);
    var i := s[p];
    FlatSurvivor(q, m, i);
    var ix := OnlyTerm(q.args[i].args[0], m);
    var a := OptimizedArgs(q.args);
    OnlyTermScores(q, m, i);
    hide FlatWsum, SoundArguments, Matches, Score, Val, Weighted, WeightSum, Scored, Optimize, OptimizedArgs, Survivors;
    hide Ratio, Times, OnlyTerm, ScoredTerm;
    MovedScore(q, ix, m, 0);
    GivenScore(q, ix, m, 0);
    SurvivorValues(q, p, ix, m);
    hide Pick;
    WeightedSingleOut(Pick(q.weights, s), a, p, ix, m, 0);
    WeightedSingleOut(q.weights[..|a|], a, p, ix, m, 0);
    RatiosDiffer(q.weights[i], q.weights[p], Val(a[p], ix, m, 0), WeightSum(q.weights));
  }

  /** A survivor of a flat WSUM is a scored term. */
  lemma FlatSurvivor(q: Qry, m: Model, i: nat)
    requires FlatWsum(q) && m.BM25? && i in Survivors(q.args)
    ensures i < |q.args| && ScoredTerm(q.args[i]) && OptimizedArgs(q.args) == Pick(q.args, Survivors(q.args))
  {
    FlatArguments(q, OnlyTerm(Term("", ""), m), m);
  }

  lemma SurvivorValues(q: Qry, p: nat, ix: Index, m: Model)
    requires q.Node? && p < |Survivors(q.args)| && |q.weights| == |q.args|
    requires OptimizedArgs(q.args) == Pick(q.args, Survivors(q.args))
    requires forall j :: 0 <= j < |q.args| && j != Survivors(q.args)[p] ==> Val(q.args[j], ix, m, 0) == 0.0
    ensures var s, a := Survivors(q.args), OptimizedArgs(q.args);
            && a[p] == q.args[s[p]] && Pick(q.weights, s)[p] == q.weights[s[p]]
            && (forall r :: 0 <= r < |a| && r != p ==> Val(a[r], ix, m, 0) == 0.0)
  {
    hide Survivors, OptimizedArgs, Val;
    var s, a := Survivors(q.args), OptimizedArgs(q.args);
    forall r | 0 <= r < |a| && r != p ensures Val(a[r], ix, m, 0) == 0.0 {
      assert a[r] == q.args[s[r]] && s[r] != s[p];
    }
  }

  /** What a flat WSUM and its arguments are worth in the collection of one of its terms. */
  lemma OnlyTermScores(q: Qry, m: Model, i: nat)
    requires FlatWsum(q) && m.BM25? && i < |q.args| && ScoredTerm(q.args[i])
    ensures var ix := OnlyTerm(q.args[i].args[0], m);
            && Matches(q, ix, 0) && Score(q, ix, m, 0).Some? && SoundArguments(q, ix, m)
            && Val(q.args[i], ix, m, 0) != 0.0
            && forall j :: 0 <= j < |q.args| && j != i ==> Val(q.args[j], ix, m, 0) == 0.0
  {
    var ix := OnlyTerm(q.args[i].args[0], m);
    OnlyTermValues(q, m, i);
    FlatArguments(q, ix, m);
    hide SoundArguments, Matches, Score, Val, Scored;
    WsumScore(q, ix, m, 0);
  }

  /** Where the single argument left had not the whole weight, the collection of its term alone shows it. */
  lemma DroppedWeightShows(q: Qry, m: Model)
    requires FlatWsum(q) && m.BM25? && |Survivors(q.args)| == 1 && !KeepsWeights(q.args, q.weights)
    ensures var i := Survivors(q.args)[0];
            && ScoredTerm(q.args[i]) && Optimize(q).Some?
            && var ix := OnlyTerm(q.args[i].args[0], m);
               && Matches(q, ix, 0) && Score(q, ix, m, 0).Some?
               && Score(Optimize(q).value, ix, m, 0) != Score(q, ix, m, 0)
  {
    var i := Survivors(q.args)[0];
    FlatSurvivor(q, m, i);
    var ix := OnlyTerm(q.args[i].args[0], m);
    OnlyTermScores(q, m, i);
    OptimizedWsum(q);
    OnlyTermScore(q.args[i], m);
    hide FlatWsum, SoundArguments, Matches, Score, Val, Weighted, WeightSum, Scored, Optimize, OptimizedArgs, Survivors;
    SingleWeightKeepsScoreExactly(q, ix, m, 0);
    assert OptimizedArgs(q.args)[0] == q.args[i];
  }

  /**
   Optimizing a flat WSUM keeps every score in every collection if and only if the weights of the survivors
   stay in place, or the single survivor had the whole weight.
   */
  lemma FlatScoresKeptExactly(q: Qry, m: Model)
    requires FlatWsum(q) && m.BM25?
    ensures Optimize(q).Some?
    ensures (forall ix, d :: ValidIndex(ix) && Matches(q, ix, d) && Score(q, ix, m, d).Some? ==>
               Score(Optimize(q).value, ix, m, d) == Score(q, ix, m, d))
            <==> KeepsWeights(q.args, q.weights)
  {
    var s := Survivors(q.args);
    FlatArguments(q, OnlyTerm(Term("", ""), m), m);
    OptimizedWsum(q);
    hide FlatWsum, SoundArguments, Matches, Score, Optimize, OptimizedArgs, Survivors;
    if KeepsWeights(q.args, q.weights) {
      forall ix, d | ValidIndex(ix) && Matches(q, ix, d) && Score(q, ix, m, d).Some?
        ensures Score(Optimize(q).value, ix, m, d) == Score(q, ix, m, d)
      {
        FlatArguments(q, ix, m);
        if |s| == 1 {
          SingleWeightKeepsScoreExactly(q, ix, m, d);
        } else {
          StayingWeightsKeepScore(q, ix, m, d);
        }
      }
    } else if |s| == 1 {
      DroppedWeightShows(q, m);
      var ix := OnlyTerm(q.args[s[0]].args[0], m);
      assert Score(Optimize(q).value, ix, m, 0) != Score(q, ix, m, 0);
    } else {
      var p :| 0 <= p < |s| && q.weights[p] != q.weights[s[p]];
      MovedWeightShows(q, m, p);
      var ix := OnlyTerm(q.args[s[p]].args[0], m);
      assert Score(Optimize(q).value, ix, m, 0) != Score(q, ix, m, 0);
    }
  }

  // ----- Two inputs

  /** A stopword query: what is left of #AND(the). */
  const NOTHING := Node(AND, "#AND", [], [])

  function Word(term: string): (a: Qry)
    ensures ScoredTerm(a)
  {
    Node(SCORE, "#SCORE", [Term(term, "body")], [])
  }

  /** #WSUM(0.1 #AND(the) 0.2 apple 0.7 pear) */
  const MOVED := Node(WSUM, "#WSUM", [NOTHING, Word("apple"), Word("pear")], [0.1, 0.2, 0.7])

  /** #WSUM(0.3 apple 0.7 #AND(the)) */
  const COLLAPSED := Node(WSUM, "#WSUM", [Word("apple"), NOTHING], [0.3, 0.7])

  lemma NothingLeft()
    ensures !HasTerm(NOTHING) && Optimize(NOTHING) == None && !ScoredTerm(NOTHING)
  {
    PruneKeepsTerms(NOTHING);
  }

  lemma WordTerms()
    ensures Word("apple").args[0] == Term("apple", "body") && Word("pear").args[0] == Term("pear", "body")
  {
  }

  lemma TotalWeights()
    ensures WeightSum([0.1, 0.2, 0.7]) == 1.0 && WeightSum([0.3, 0.7]) == 1.0
  {
    assert [0.1, 0.2, 0.7][..2] == [0.1, 0.2] && [0.1, 0.2][..1] == [0.1] && [0.1][..0] == [];
    assert WeightSum([0.1, 0.2]) == WeightSum([0.1]) + 0.2;
    assert [0.3, 0.7][..1] == [0.3] && [0.3][..0] == [];
  }

  lemma RatioOfOne(w: real, v: real)
    ensures Ratio(Times(w, v), 1.0) == w * v
  {
  }

  /** The weight of the vanished argument stays behind: apple is scored with 0.1 instead of 0.2. */
  lemma WeightMoves(m: Model)
    requires m.BM25?
    ensures Optimize(MOVED) == Some(Node(WSUM, "#WSUM", [Word("apple"), Word("pear")], [0.1, 0.2, 0.7]))
    ensures exists ix, v :: ValidIndex(ix) && v != 0.0 && Score(Word("apple"), ix, m, 0) == Some(v)
              && Score(MOVED, ix, m, 0) == Some(0.2 * v) && Score(Optimize(MOVED).value, ix, m, 0) == Some(0.1 * v)
  {
    MovedIsFlat();
    var a := MOVED.args[1];
    var ix := OnlyTerm(a.args[0], m);
    MovedArguments();
    OptimizedWsum(MOVED);
    OnlyTermScores(MOVED, m, 1);
    WordScore(a, m);
    hide FlatWsum, SoundArguments, Matches, Score, Val, Weighted, Optimize, OptimizedArgs, Survivors, OnlyTerm, Word,
      Ratio, WeightSum;
    hide ScoredTerm, Times;
    TotalWeights();
    var v := Val(a, ix, m, 0);
    WsumScored(MOVED, ix, m, 0);
    WsumScore(MOVED, ix, m, 0);
    MovedScore(MOVED, ix, m, 0);
    WeightedSingleOut(MOVED.weights[..3], MOVED.args, 1, ix, m, 0);
    WeightedSingleOut(MOVED.weights[..2], [Word("apple"), Word("pear")], 0, ix, m, 0);
    RatioOfOne(0.2, v);
    RatioOfOne(0.1, v);
  }

  lemma MovedIsFlat()
    ensures FlatWsum(MOVED) && ScoredTerm(MOVED.args[1])
  {
    NothingLeft();
    WordTerms();
    assert ScoredTerm(MOVED.args[1]);
  }

  lemma WordScore(a: Qry, m: Model)
    requires ScoredTerm(a) && m.BM25?
    ensures var ix := OnlyTerm(a.args[0], m);
            Score(a, ix, m, 0) == Some(Val(a, ix, m, 0)) && Val(a, ix, m, 0) != 0.0
  {
    OnlyTermScore(a, m);
    OnlyTermMatches(a, a.args[0], m);
    hide Matches, Score;
  }

  lemma MovedArguments()
    ensures OptimizedArgs(MOVED.args) == [Word("apple"), Word("pear")]
  {
    NothingLeft();
    TermOrNothing(Word("apple"));
    TermOrNothing(Word("pear"));
    hide Optimize, Word;
    var a, b := Word("apple"), Word("pear");
    assert [b][1..] == [] && OptimizedArgs([b]) == [b];
    assert [a, b][1..] == [b] && OptimizedArgs([a, b]) == [a] + [b];
    assert MOVED.args[1..] == [a, b];
  }

  /** With nothing else left, the node and the weight are dropped: apple is scored with 1 instead of 0.3. */
  lemma WeightCollapses(m: Model)
    requires m.BM25?
    ensures Optimize(COLLAPSED) == Some(Word("apple"))
    ensures exists ix, v :: ValidIndex(ix) && v != 0.0 && Score(Word("apple"), ix, m, 0) == Some(v)
              && Score(COLLAPSED, ix, m, 0) == Some(0.3 * v)
  {
    NothingLeft();
    assert ScoredTerm(COLLAPSED.args[0]) && FlatWsum(COLLAPSED);
    var a := COLLAPSED.args[0];
    var ix := OnlyTerm(a.args[0], m);
    CollapsedArguments();
    OptimizedWsum(COLLAPSED);
    OnlyTermScores(COLLAPSED, m, 0);
    WordScore(a, m);
    hide FlatWsum, SoundArguments, Matches, Score, Val, Weighted, Optimize, OptimizedArgs, Survivors, OnlyTerm, Word,
      Ratio, WeightSum;
    hide ScoredTerm, Times;
    TotalWeights();
    WsumScored(COLLAPSED, ix, m, 0);
    WsumScore(COLLAPSED, ix, m, 0);
    WeightedSingleOut(COLLAPSED.weights[..2], COLLAPSED.args, 0, ix, m, 0);
    RatioOfOne(0.3, Val(a, ix, m, 0));
  }

  lemma CollapsedArguments()
    ensures OptimizedArgs(COLLAPSED.args) == [Word("apple")]
  {
    NothingLeft();
    TermOrNothing(Word("apple"));
    hide Optimize, Word;
    assert COLLAPSED.args[1..] == [NOTHING] && [NOTHING][1..] == [];
  }
}
