/** Whether the optimized query means what the original did: the same matches with the same scores. */
module OptimizerMeaning {
  import opened Wrappers
  import opened Sequences
  import opened InvertedLists
  import opened QueryTree
  import opened Semantics
  import opened Optimizer
  import opened OptimizerLaws
  import opened OptimizerPruning
  import Sweeps
  import Near
  import Window

  /** `r` can stand for `q`: the same positions, or the same matches and, where `q` scores, the same score. */
  ghost predicate Agree(q: Qry, r: Qry, ix: Index, m: Model) {
    && q.IsIop() == r.IsIop()
    && (q.IsIop() ==> FieldOf(q) == FieldOf(r) && forall d :: Positions(q, ix, d) == Positions(r, ix, d))
    && (forall d :: Matches(q, ix, d) == Matches(r, ix, d))
    && (!q.IsIop() ==> forall d :: Matches(q, ix, d) && Score(q, ix, m, d).Some? ==>
        Score(r, ix, m, d) == Score(q, ix, m, d))
  }

  lemma AgreeTransitive(p: Qry, q: Qry, r: Qry, ix: Index, m: Model)
    requires Agree(p, q, ix, m) && Agree(q, r, ix, m)
    ensures Agree(p, r, ix, m)
  {
    hide Matches, Score, Positions;
  }

  /** The retrieval model can score every operator of the tree. */
  predicate Supported(q: Qry, m: Model) {
    q.IsIop() || (OpSupported(q.op, m) && forall i :: 0 <= i < |q.args| ==> Supported(q.args[i], m))
  }

  // ----- Nodes whose arguments agree

  ghost predicate ArgsAgree(args: seq<Qry>, args': seq<Qry>, ix: Index, m: Model) {
    |args| == |args'| && forall i :: 0 <= i < |args| ==> Agree(args[i], args'[i], ix, m)
  }

  lemma PositionsAgree(op: Op, name: string, args: seq<Qry>, args': seq<Qry>, w: seq<real>, ix: Index, m: Model)
    requires WellTyped(Node(op, name, args, w)) && Node(op, name, args, w).IsIop() && ArgsAgree(args, args', ix, m)
    ensures forall d :: Positions(Node(op, name, args, w), ix, d) == Positions(Node(op, name, args', w), ix, d)
  {
    var q, r := Node(op, name, args, w), Node(op, name, args', w);
    forall d ensures Positions(q, ix, d) == Positions(r, ix, d) {
      PositionsOfNode(q, ix, d);
      PositionsOfNode(r, ix, d);
      hide Positions;
      forall i | 0 <= i < |args| ensures ArgPositions(q, ix, d)[i] == ArgPositions(r, ix, d)[i] {
        assert Agree(args[i], args'[i], ix, m) && args[i].IsIop();
        assert q.Args()[i] == args[i] && r.Args()[i] == args'[i];
      }
      assert ArgPositions(q, ix, d) == ArgPositions(r, ix, d);
    }
  }

  lemma MatchesAgree(op: Op, name: string, args: seq<Qry>, args': seq<Qry>, w: seq<real>, ix: Index, m: Model)
    requires !Node(op, name, args, w).IsIop() && ArgsAgree(args, args', ix, m)
    ensures forall d :: Matches(Node(op, name, args, w), ix, d) == Matches(Node(op, name, args', w), ix, d)
  {
    forall d ensures Matches(Node(op, name, args, w), ix, d) == Matches(Node(op, name, args', w), ix, d) {
      assert forall i :: 0 <= i < |args| ==>
        Agree(args[i], args'[i], ix, m) && Matches(args[i], ix, d) == Matches(args'[i], ix, d);
    }
  }

  lemma LeafAgrees(q: Qry, r: Qry, ix: Index, m: Model, d: int)
    requires Agree(q, r, ix, m) && q.IsIop()
    ensures LeafScore(q, ix, m, d) == LeafScore(r, ix, m, d)
  {
    hide Positions, Matches, Score, Bm25Weight;
    assert Docs(q, ix) == Docs(r, ix);
  }

  lemma {:induction false} AccumulatedAgrees(q: Qry, r: Qry, ix: Index, m: Model, d: int, k: nat)
    requires q.Node? && r.Node? && q.op == r.op && q.weights == r.weights && ArgsAgree(q.args, r.args, ix, m)
    requires !q.IsIop() && !q.op.SCORE? && WellTyped(q) && k <= |q.args|
    ensures Accumulated(q, ix, m, d, k).Some? ==> Accumulated(r, ix, m, d, k) == Accumulated(q, ix, m, d, k)
  {
    hide Matches, Score, Positions, Join;
    if k > 0 {
      AccumulatedAgrees(q, r, ix, m, d, k - 1);
      assert Agree(q.args[k - 1], r.args[k - 1], ix, m) && !q.args[k - 1].IsIop();
    }
  }

  /** Replacing arguments by agreeing ones gives an agreeing node. */
  lemma NodeAgrees(op: Op, name: string, args: seq<Qry>, args': seq<Qry>, w: seq<real>, ix: Index, m: Model)
    requires WellTyped(Node(op, name, args, w)) && args != [] && ArgsAgree(args, args', ix, m)
    ensures Agree(Node(op, name, args, w), Node(op, name, args', w), ix, m)
  {
    var q, r := Node(op, name, args, w), Node(op, name, args', w);
    assert Agree(args[0], args'[0], ix, m);
    if q.IsIop() {
      PositionsAgree(op, name, args, args', w, ix, m);
      assert args[0].IsIop();
      hide Positions;
    } else {
      MatchesAgree(op, name, args, args', w, ix, m);
      forall d | Matches(q, ix, d) && Score(q, ix, m, d).Some? ensures Score(r, ix, m, d) == Score(q, ix, m, d) {
        hide Matches;
        if op.SCORE? {
          assert args[0].IsIop();
          LeafAgrees(args[0], args'[0], ix, m, d);
        } else {
          AccumulatedAgrees(q, r, ix, m, d, |args|);
        }
      }
      hide Score, Matches;
    }
  }

  // ----- Nodes with a single argument

  /** One list on its own: every position is a chain. */
  lemma {:induction false} SingleNear(l: seq<int>, n: int, at: nat)
    requires at <= |l|
    ensures Near.Matches([l], n, [at]) == l[at..]
    decreases |l| - at
  {
    if at < |l| {
      assert !Sweeps.OutOfDoc([l], [at]);
      assert Near.FindFrom([l], n, [at], 1).Match?;
      assert Sweeps.Bump([at]) == [at + 1];
      SingleNear(l, n, at + 1);
      assert l[at..] == [l[at]] + l[at + 1..];
    } else {
      assert [at][0] == |[l][0]|;
    }
  }

  /** One list on its own spans one position, which is a window exactly when `n` is at least 1. */
  lemma {:induction false} SingleWindow(l: seq<int>, n: int, at: nat)
    requires at <= |l|
    ensures Window.Matches([l], n, [at]) == if n >= 1 then l[at..] else []
    decreases |l| - at
  {
    if at < |l| {
      assert !Sweeps.OutOfDoc([l], [at]);
      var top, bottom := Window.Attained([l], [at]);
      assert Window.IsWindow([l], n, [at]) <==> n >= 1;
      if n >= 1 {
        assert Sweeps.Bump([at]) == [at + 1];
        assert l[at..] == [l[at]] + l[at + 1..];
      } else {
        assert Window.LowestArg([l], [at]) == 0 && [at][0 := at + 1] == [at + 1];
      }
      SingleWindow(l, n, at + 1);
    } else {
      assert [at][0] == |[l][0]|;
    }
  }

  lemma SinglePositions(op: Op, l: seq<int>)
    requires StrictlyIncreasing(l)
    ensures op.SYN? || op.NEAR? ==> Combine(op, [l]) == l
    ensures op.WINDOW? ==> Combine(op, [l]) == if op.n >= 1 then l else []
  {
    assert Sweeps.Start([l]) == [0] && l[0..] == l;
    if op.SYN? {
      assert Flatten([l]) == l + Flatten([]) == l;
      SameElementsSameSequence(SortedSet(l), l);
    } else if op.NEAR? {
      SingleNear(l, op.n, 0);
    } else if op.WINDOW? {
      SingleWindow(l, op.n, 0);
    }
  }

  lemma {:induction false} AccumulatedNonNegative(q: Qry, ix: Index, d: int, k: nat)
    requires q.Node? && k <= |q.args| && (q.op.AND? || q.op.OR?)
    ensures Accumulated(q, ix, RankedBoolean, d, k).Some? ==> Accumulated(q, ix, RankedBoolean, d, k).value >= 0.0
    decreases q, 0, k
  {
    hide Matches;
    if k > 0 {
      AccumulatedNonNegative(q, ix, d, k - 1);
      RankedNonNegative(q.args[k - 1], ix, d);
    }
  }

  lemma {:induction false} RankedNonNegative(q: Qry, ix: Index, d: int)
    ensures Score(q, ix, RankedBoolean, d).Some? ==> Score(q, ix, RankedBoolean, d).value >= 0.0
    decreases q, 1
  {
    if q.Node? && (q.op.AND? || q.op.OR?) {
      AccumulatedNonNegative(q, ix, d, |q.args|);
    }
  }

  lemma UnrankedIsOne(q: Qry, ix: Index, d: int)
    requires Supported(q, UnrankedBoolean) && !q.IsIop() && Matches(q, ix, d)
    ensures Score(q, ix, UnrankedBoolean, d) == Some(1.0)
  {
  }

  /** The score of an operator with a single, matching argument. */
  lemma SingleScore(q: Qry, ix: Index, m: Model, d: int)
    requires q.Node? && !q.IsIop() && !q.op.SCORE? && |q.args| == 1
    requires Supported(q, m) && !q.args[0].IsIop() && Matches(q.args[0], ix, d)
    requires q.op.WSUM? ==> |q.weights| == 1 && q.weights[0] > 0.0
    ensures Score(q, ix, m, d).Some? ==> Score(q.args[0], ix, m, d) == Score(q, ix, m, d)
  {
    var a := q.args[0];
    if m.UnrankedBoolean? {
      UnrankedIsOne(a, ix, d);
    } else {
      if m.RankedBoolean? {
        RankedNonNegative(a, ix, d);
      }
      hide Matches, Score;
      assert Accumulated(q, ix, m, d, 0) == Some(0.0);
      assert Accumulated(q, ix, m, d, 1) ==
        match Score(a, ix, m, d) case None => None case Some(y) => Some(Join(q.op, true, 0.0, WeightAt(q, 0), y));
      SingleFinish(q, ix, m, d);
    }
  }

  lemma SingleFinish(q: Qry, ix: Index, m: Model, d: int)
    requires q.Node? && !q.IsIop() && !q.op.SCORE? && |q.args| == 1 && !m.UnrankedBoolean?
    requires q.op.WSUM? ==> |q.weights| == 1 && q.weights[0] > 0.0
    requires m.RankedBoolean? ==> Score(q.args[0], ix, m, d).Some? ==> Score(q.args[0], ix, m, d).value >= 0.0
    requires Accumulated(q, ix, m, d, 1) ==
        match Score(q.args[0], ix, m, d)
        case None => None
        case Some(y) => Some(Join(q.op, true, 0.0, WeightAt(q, 0), y))
    ensures Score(q, ix, m, d).Some? ==> Score(q.args[0], ix, m, d) == Score(q, ix, m, d)
  {
    hide Matches, Accumulated, Positions;
    if q.op.WSUM? {
      if y :| Score(q.args[0], ix, m, d) == Some(y) {
        FinishSingle(q, y);
        assert Join(q.op, true, 0.0, WeightAt(q, 0), y) == 0.0 + q.weights[0] * y;
        assert Accumulated(q, ix, m, d, 1) == Some(0.0 + q.weights[0] * y);
        assert Score(q, ix, m, d).Some? ==> Score(q, ix, m, d) == Some(Finish(q, 0.0 + q.weights[0] * y));
      }
    }
  }

  lemma SingleWeight(w: seq<real>)
    requires |w| == 1
    ensures WeightSum(w) == w[0]
  {
    assert w[..0] == [];
  }

  lemma FinishSingle(q: Qry, y: real)
    requires q.Node? && q.op.WSUM? && |q.weights| == 1 && q.weights[0] > 0.0
    ensures Finish(q, 0.0 + q.weights[0] * y) == y
  {
    SingleWeight(q.weights);
    var w := q.weights[0];
    assert (0.0 + w * y) / w == y;
  }

  /** What optimizing relies on at one operator with a single argument. */
  predicate SoundSingle(q: Qry) {
    q.Node? && |q.args| == 1 ==>
      && (q.op.WINDOW? ==> q.op.n >= 1)
      && (q.op.WSUM? ==> |q.weights| == 1 && q.weights[0] > 0.0)
  }

  /** An operator with a single argument agrees with that argument. */
  lemma SingleAgrees(q: Qry, ix: Index, m: Model)
    requires ValidIndex(ix) && q.Node? && |q.args| == 1 && !q.op.SCORE? && WellTyped(q) && Supported(q, m)
             && SoundSingle(q)
    ensures Agree(q, q.args[0], ix, m)
  {
    var a := q.args[0];
    if q.IsIop() {
      forall d ensures Positions(q, ix, d) == Positions(a, ix, d) {
        PositionsOfNode(q, ix, d);
        PositionsOrdered(a, ix, d);
        assert ArgPositions(q, ix, d) == [Positions(a, ix, d)];
        SinglePositions(q.op, Positions(a, ix, d));
      }
      hide Positions;
    } else {
      forall d ensures Matches(q, ix, d) == Matches(a, ix, d) {
      }
      forall d | Matches(q, ix, d) && Score(q, ix, m, d).Some? ensures Score(a, ix, m, d) == Score(q, ix, m, d) {
        SingleScore(q, ix, m, d);
      }
    }
  }

  /** For a one-argument WINDOW the condition is exact: collapsing it is right for all documents or none matter. */
  lemma WindowCollapseExact(q: Qry, ix: Index)
    requires ValidIndex(ix) && q.Node? && q.op.WINDOW? && |q.args| == 1
    ensures (forall d :: Positions(q, ix, d) == Positions(q.args[0], ix, d)) <==>
            (q.op.n >= 1 || forall d :: Positions(q.args[0], ix, d) == [])
  {
    var a := q.args[0];
    forall d ensures Positions(q, ix, d) == if q.op.n >= 1 then Positions(a, ix, d) else [] {
      PositionsOfNode(q, ix, d);
      PositionsOrdered(a, ix, d);
      assert ArgPositions(q, ix, d) == [Positions(a, ix, d)];
      SinglePositions(q.op, Positions(a, ix, d));
    }
  }

  // ----- Whole trees

  /**
   What has to hold for optimizing to keep scores: one-argument operators it may drop, and no SUM that
   gets converted.  Both are what the optimizer itself looks at.
   */
  predicate Sound(q: Qry) {
    && SoundSingle(q)
    && (q.Node? && q.op.SUM? ==> NoDuplicates(OptimizedArgs(q.args)))
    && forall i :: 0 <= i < |q.Args()| ==> Sound(q.Args()[i])
  }

  lemma {:induction false} NoEmptyHasTerm(q: Qry)
    requires NoEmptyNode(q)
    ensures HasTerm(q) && Optimize(q).Some?
  {
    if q.Node? {
      assert NoEmptyNode(q.Args()[0]);
      NoEmptyHasTerm(q.args[0]);
    }
    PruneKeepsTerms(q);
  }

  lemma {:induction false} ArgsKept(args: seq<Qry>)
    requires forall i :: 0 <= i < |args| ==> NoEmptyNode(args[i])
    ensures |OptimizedArgs(args)| == |args|
    ensures forall i :: 0 <= i < |args| ==> Optimize(args[i]) == Some(OptimizedArgs(args)[i])
  {
    if args != [] {
      NoEmptyHasTerm(args[0]);
      ArgsKept(args[1..]);
      assert forall i :: 1 <= i < |args| ==> args[i] == args[1..][i - 1];
    }
  }

  /** On sound trees without empty operators the optimized query has the same matches and scores. */
  lemma {:induction false} OptimizeAgrees(q: Qry, ix: Index, m: Model)
    requires ValidIndex(ix) && WellTyped(q) && NoEmptyNode(q) && Supported(q, m) && Sound(q)
    ensures Optimize(q).Some? && Agree(q, Optimize(q).value, ix, m) && Supported(Optimize(q).value, m)
    decreases q
  {
    if q.Node? {
      ArgParts(q, m);
      ArgsKept(q.args);
      var args := OptimizedArgs(q.args);
      forall i | 0 <= i < |args| ensures Agree(q.args[i], args[i], ix, m) && Supported(args[i], m) {
        OptimizeAgrees(q.args[i], ix, m);
      }
      OptimizedNodeAgrees(q, args, ix, m);
    }
  }

  lemma ArgParts(q: Qry, m: Model)
    requires q.Node? && WellTyped(q) && NoEmptyNode(q) && Supported(q, m) && Sound(q)
    ensures forall i :: 0 <= i < |q.args| ==>
              WellTyped(q.args[i]) && NoEmptyNode(q.args[i]) && Supported(q.args[i], m) && Sound(q.args[i])
  {
    assert forall i :: 0 <= i < |q.args| ==> q.args[i] == q.Args()[i];
  }

  lemma OptimizedNodeAgrees(q: Qry, args: seq<Qry>, ix: Index, m: Model)
    requires ValidIndex(ix) && q.Node? && WellTyped(q) && NoEmptyNode(q) && Supported(q, m) && Sound(q)
    requires args == OptimizedArgs(q.args) && |args| == |q.args| && ArgsAgree(q.args, args, ix, m)
    requires forall i :: 0 <= i < |args| ==> Supported(args[i], m)
    ensures Optimize(q).Some? && Agree(q, Optimize(q).value, ix, m) && Supported(Optimize(q).value, m)
  {
    var node := Node(q.op, q.name, args, q.weights);
    assert Node(q.op, q.name, q.args, q.weights) == q;
    NodeAgrees(q.op, q.name, q.args, args, q.weights, ix, m);
    OptimizedArgsNormal(q.args);
    OptimizeNode(q);
    ZeroWeightMeansDuplicate(args);
    assert Converted(node) == node;
    if |args| == 1 && !q.op.SCORE? {
      NodeTyped(q, args, ix, m);
      SingleAgrees(node, ix, m);
      AgreeTransitive(q, node, args[0], ix, m);
    }
  }

  lemma NodeTyped(q: Qry, args: seq<Qry>, ix: Index, m: Model)
    requires q.Node? && WellTyped(q) && |args| == |q.args| == 1 && !q.op.SCORE? && Supported(q, m)
    requires args == OptimizedArgs(q.args) && ArgsAgree(q.args, args, ix, m)
    ensures WellTyped(Node(q.op, q.name, args, q.weights))
  {
    assert WellTyped(q.Args()[0]);
    assert Agree(q.args[0], args[0], ix, m);
    OptimizeTyped(q.args[0]);
    assert OptimizedArgs(q.args[1..]) == [];
    hide Agree;
  }
}
