/** The conversion of a SUM with duplicate arguments into a WSUM: what it does to matches and scores. */
module SumConversion {
  import opened Wrappers
  import opened InvertedLists
  import opened QueryTree
  import opened Semantics
  import opened Optimizer
  import opened OptimizerLaws
  import opened OptimizerMeaning

  /** Duplicates that also agree on what the duplicate test ignores: distances and weights. */
  predicate Same(q1: Qry, q2: Qry) {
    if q1.Term? || q2.Term? then q1 == q2
    else
      && q1.op == q2.op
      && (q1.op.WSUM? ==> q1.weights == q2.weights)
      && |q1.args| == |q2.args|
      && forall i :: 0 <= i < |q1.args| ==> Same(q1.args[i], q2.args[i])
  }

  predicate AgreeingDuplicates(args: seq<Qry>) {
    forall i, j :: 0 <= i < j < |args| && Duplicate(args[i], args[j]) ==> Same(args[i], args[j])
  }

  /** Nothing about the two queries differs in any document. */
  ghost predicate Twins(q1: Qry, q2: Qry, ix: Index, m: Model) {
    && q1.IsIop() == q2.IsIop() && FieldOf(q1) == FieldOf(q2)
    && forall d ::
         Positions(q1, ix, d) == Positions(q2, ix, d)
         && Matches(q1, ix, d) == Matches(q2, ix, d)
         && Score(q1, ix, m, d) == Score(q2, ix, m, d)
  }

  lemma TwinPositions(q1: Qry, q2: Qry, ix: Index, m: Model, d: int)
    requires q1.Node? && q2.Node? && q1.op == q2.op && |q1.args| == |q2.args|
    requires forall i :: 0 <= i < |q1.args| ==> Twins(q1.args[i], q2.args[i], ix, m)
    ensures Positions(q1, ix, d) == Positions(q2, ix, d)
  {
    PositionsOfNode(q1, ix, d);
    PositionsOfNode(q2, ix, d);
    hide Positions;
    forall i | 0 <= i < |q1.args| ensures ArgPositions(q1, ix, d)[i] == ArgPositions(q2, ix, d)[i] {
      assert Twins(q1.args[i], q2.args[i], ix, m);
      assert q1.Args()[i] == q1.args[i] && q2.Args()[i] == q2.args[i];
    }
    assert ArgPositions(q1, ix, d) == ArgPositions(q2, ix, d);
  }

  lemma {:induction false} TwinAccumulated(q1: Qry, q2: Qry, ix: Index, m: Model, d: int, k: nat)
    requires q1.Node? && q2.Node? && q1.op == q2.op && |q1.args| == |q2.args| && k <= |q1.args|
    requires q1.op.WSUM? ==> q1.weights == q2.weights
    requires forall i :: 0 <= i < |q1.args| ==> Twins(q1.args[i], q2.args[i], ix, m)
    ensures Accumulated(q1, ix, m, d, k) == Accumulated(q2, ix, m, d, k)
  {
    hide Positions, Matches, Score;
    if k > 0 {
      TwinAccumulated(q1, q2, ix, m, d, k - 1);
      assert Twins(q1.args[k - 1], q2.args[k - 1], ix, m);
    }
  }

  lemma TwinScores(q1: Qry, q2: Qry, ix: Index, m: Model, d: int)
    requires q1.Node? && q2.Node? && q1.op == q2.op && |q1.args| == |q2.args|
    requires q1.op.WSUM? ==> q1.weights == q2.weights
    requires forall i :: 0 <= i < |q1.args| ==> Twins(q1.args[i], q2.args[i], ix, m)
    ensures Score(q1, ix, m, d) == Score(q2, ix, m, d)
  {
    hide Positions, Matches, Bm25Weight;
    TwinAccumulated(q1, q2, ix, m, d, |q1.args|);
    if q1.op.SCORE? && q1.args != [] {
      var a, b := q1.args[0], q2.args[0];
      assert Twins(a, b, ix, m);
      assert Docs(a, ix) == Docs(b, ix);
      assert LeafScore(a, ix, m, d) == LeafScore(b, ix, m, d);
    }
  }

  lemma TwinMatches(q1: Qry, q2: Qry, ix: Index, m: Model, d: int)
    requires q1.Node? && q2.Node? && q1.op == q2.op && |q1.args| == |q2.args|
    requires Positions(q1, ix, d) == Positions(q2, ix, d)
    requires forall i :: 0 <= i < |q1.args| ==> Twins(q1.args[i], q2.args[i], ix, m)
    ensures Matches(q1, ix, d) == Matches(q2, ix, d)
  {
    hide Positions, Score;
    assert forall i :: 0 <= i < |q1.args| ==>
      Twins(q1.args[i], q2.args[i], ix, m) && Matches(q1.args[i], ix, d) == Matches(q2.args[i], ix, d);
  }

  /** Queries that are the same up to display names mean the same. */
  lemma {:induction false} SameAreTwins(q1: Qry, q2: Qry, ix: Index, m: Model)
    requires Same(q1, q2)
    ensures Twins(q1, q2, ix, m)
  {
    if q1.Node? && q2.Node? {
      forall i | 0 <= i < |q1.args| ensures Twins(q1.args[i], q2.args[i], ix, m) {
        SameAreTwins(q1.args[i], q2.args[i], ix, m);
      }
      forall d ensures Positions(q1, ix, d) == Positions(q2, ix, d) && Matches(q1, ix, d) == Matches(q2, ix, d)
                    && Score(q1, ix, m, d) == Score(q2, ix, m, d)
      {
        TwinPositions(q1, q2, ix, m, d);
        TwinMatches(q1, q2, ix, m, d);
        TwinScores(q1, q2, ix, m, d);
      }
    }
  }

  // ----- Weighted sums

  function Dot(w: seq<nat>, v: seq<real>): real
    requires |w| == |v|
  {
    if w == [] then 0.0
    else Dot(w[..|w| - 1], v[..|v| - 1]) + w[|w| - 1] as real * v[|v| - 1]
  }

  lemma {:induction false} DotUpdate(w: seq<nat>, v: seq<real>, i: nat, x: nat)
    requires |w| == |v| && i < |w|
    ensures Dot(w[i := x], v) == Dot(w, v) + (x as real - w[i] as real) * v[i]
  {
    var last := |w| - 1;
    if i < last {
      DotUpdate(w[..last], v[..last], i, x);
      assert w[i := x][..last] == w[..last][i := x];
    } else {
      assert w[i := x][..last] == w[..last];
    }
  }

  /** Values that duplicates have in common. */
  ghost predicate Shared(args: seq<Qry>, v: seq<real>) {
    |v| == |args| && forall i, j :: 0 <= i < j < |args| && Duplicate(args[i], args[j]) ==> v[i] == v[j]
  }

  lemma MoveWeight(w: seq<nat>, v: seq<real>, i: nat, j: nat)
    requires |w| == |v| && i < j < |w| && w[j] == 1 && v[i] == v[j]
    ensures Dot(w[j := 0][i := w[i] + 1], v) == Dot(w, v)
  {
    DotUpdate(w, v, j, 0);
    DotUpdate(w[j := 0], v, i, w[i] + 1);
    hide Dot;
  }

  lemma {:induction false} AbsorbKeepsDot(args: seq<Qry>, w: seq<nat>, v: seq<real>, i: nat, j: nat)
    requires |w| == |args| && i < j <= |args| && Shared(args, v)
    requires forall k :: i < k < |args| ==> w[k] <= 1
    ensures Dot(Absorb(args, w, i, j), v) == Dot(w, v)
    decreases |args| - j
  {
    if j < |args| {
      if w[j] != 0 && Duplicate(args[i], args[j]) {
        MoveWeight(w, v, i, j);
        AbsorbKeepsDot(args, w[j := 0][i := w[i] + 1], v, i, j + 1);
      } else {
        AbsorbKeepsDot(args, w, v, i, j + 1);
      }
    }
  }

  /** Whatever duplicates have in common sums up to the same total under the new weights. */
  lemma {:induction false} WeightsKeepDot(args: seq<Qry>, w: seq<nat>, v: seq<real>, i: nat)
    requires |w| == |args| && i <= |args| && Shared(args, v)
    requires forall k :: i <= k < |args| ==> w[k] <= 1
    ensures Dot(WeightsFrom(args, w, i), v) == Dot(w, v)
    decreases |args| - i
  {
    if i < |args| {
      if w[i] == 0 {
        WeightsKeepDot(args, w, v, i + 1);
      } else {
        AbsorbFacts(args, w, i, i + 1);
        AbsorbKeepsDot(args, w, v, i, i + 1);
        WeightsKeepDot(args, Absorb(args, w, i, i + 1), v, i + 1);
      }
    }
  }

  lemma {:induction false} DotOfOnes(w: seq<nat>, v: seq<real>)
    requires |w| == |v| && (forall i :: 0 <= i < |w| ==> w[i] == 1) && forall i :: 0 <= i < |v| ==> v[i] == 1.0
    ensures Dot(w, v) == |w| as real
  {
    if w != [] {
      DotOfOnes(w[..|w| - 1], v[..|v| - 1]);
    }
  }

  lemma WeightSumAppend(w: seq<real>, x: real)
    ensures WeightSum(w + [x]) == WeightSum(w) + x
  {
    assert (w + [x])[..|w|] == w;
  }

  lemma {:induction false} KeptWeightSum(w: seq<nat>, v: seq<real>)
    requires |w| == |v| && forall i :: 0 <= i < |v| ==> v[i] == 1.0
    ensures WeightSum(KeptWeights(w)) == Dot(w, v)
  {
    if w != [] {
      var last := |w| - 1;
      KeptWeightSum(w[..last], v[..last]);
      WeightSumAppend(KeptWeights(w[..last]), w[last] as real);
      assert KeptWeights(w) == KeptWeights(w[..last]) + (if w[last] != 0 then [w[last] as real] else []);
      assert KeptWeights(w[..last]) + [] == KeptWeights(w[..last]);
    }
  }

  /** The new weights add up to the number of arguments. */
  lemma WeightsSumToCount(args: seq<Qry>)
    ensures WeightSum(KeptWeights(Weights(args))) == |args| as real
  {
    var v := seq(|args|, i => 1.0);
    KeptWeightSum(Weights(args), v);
    WeightsKeepDot(args, Ones(|args|), v, 0);
    DotOfOnes(Ones(|args|), v);
  }

  // ----- Scores

  /** What an argument adds to the score of a document. */
  function Val(a: Qry, ix: Index, m: Model, d: int): real {
    if Matches(a, ix, d) && Score(a, ix, m, d).Some? then Score(a, ix, m, d).value else 0.0
  }

  function Vals(args: seq<Qry>, ix: Index, m: Model, d: int): (v: seq<real>)
    ensures |v| == |args| && forall i :: 0 <= i < |v| ==> v[i] == Val(args[i], ix, m, d)
  {
    seq(|args|, i requires 0 <= i < |args| => Val(args[i], ix, m, d))
  }

  /** Every matching argument can be scored. */
  predicate Scored(args: seq<Qry>, ix: Index, m: Model, d: int) {
    forall i :: 0 <= i < |args| && Matches(args[i], ix, d) ==> Score(args[i], ix, m, d).Some?
  }

  lemma {:induction false} SumTotal(q: Qry, ix: Index, m: Model, d: int, k: nat)
    requires q.Node? && q.op.SUM? && k <= |q.args|
    ensures Accumulated(q, ix, m, d, k).Some? <==> Scored(q.args[..k], ix, m, d)
    ensures Accumulated(q, ix, m, d, k).Some? ==>
              Accumulated(q, ix, m, d, k) == Some(Dot(Ones(|q.args|)[..k], Vals(q.args, ix, m, d)[..k]))
  {
    hide Matches, Score;
    if k > 0 {
      SumTotal(q, ix, m, d, k - 1);
      assert q.args[..k][..k - 1] == q.args[..k - 1];
      assert Vals(q.args, ix, m, d)[..k][..k - 1] == Vals(q.args, ix, m, d)[..k - 1];
      assert Ones(|q.args|)[..k][..k - 1] == Ones(|q.args|)[..k - 1];
      assert forall i :: 0 <= i < k - 1 ==> q.args[..k][i] == q.args[..k - 1][i];
      assert q.args[..k][k - 1] == q.args[k - 1];
    }
  }

  function Times(x: real, y: real): real {
    x * y
  }

  /** The weighted sum over explicit lists of arguments and weights. */
  function Weighted(w: seq<real>, args: seq<Qry>, ix: Index, m: Model, d: int): real
    requires |w| == |args|
  {
    if args == [] then 0.0
    else Weighted(w[..|w| - 1], args[..|args| - 1], ix, m, d) + Times(w[|w| - 1], Val(args[|args| - 1], ix, m, d))
  }

  lemma WeightedAppend(w: seq<real>, args: seq<Qry>, x: real, a: Qry, ix: Index, m: Model, d: int)
    requires |w| == |args|
    ensures Weighted(w + [x], args + [a], ix, m, d) == Weighted(w, args, ix, m, d) + Times(x, Val(a, ix, m, d))
  {
    hide Val, Matches, Score, Times;
    assert (w + [x])[..|w|] == w && (args + [a])[..|args|] == args;
  }

  lemma TimesZero(x: real, y: real)
    requires x == 0.0 || y == 0.0
    ensures x * y == 0.0
  {
  }

  lemma {:induction false} WsumTotal(q: Qry, ix: Index, m: Model, d: int, k: nat)
    requires q.Node? && q.op.WSUM? && |q.args| <= |q.weights| && k <= |q.args| && Scored(q.args, ix, m, d)
    ensures Accumulated(q, ix, m, d, k) == Some(Weighted(q.weights[..k], q.args[..k], ix, m, d))
  {
    hide Matches, Score, Scored, Val, Weighted, Times, Accumulated;
    if k == 0 {
      WsumNothing(q, ix, m, d);
      assert q.weights[..0] == [] && q.args[..0] == [];
    } else {
      WsumTotal(q, ix, m, d, k - 1);
      assert q.args[..k] == q.args[..k - 1] + [q.args[k - 1]]
        && q.weights[..k] == q.weights[..k - 1] + [q.weights[k - 1]];
      WeightedAppend(q.weights[..k - 1], q.args[..k - 1], q.weights[k - 1], q.args[k - 1], ix, m, d);
      WsumStep(q, ix, m, d, k);
    }
  }

  lemma WsumNothing(q: Qry, ix: Index, m: Model, d: int)
    requires q.Node?
    ensures Accumulated(q, ix, m, d, 0) == Some(0.0) && Weighted([], [], ix, m, d) == 0.0
  {
  }

  lemma WsumStep(q: Qry, ix: Index, m: Model, d: int, k: nat)
    requires q.Node? && q.op.WSUM? && |q.args| <= |q.weights| && 0 < k <= |q.args| && Scored(q.args, ix, m, d)
    requires Accumulated(q, ix, m, d, k - 1).Some?
    ensures Accumulated(q, ix, m, d, k)
            == Some(Accumulated(q, ix, m, d, k - 1).value + Times(q.weights[k - 1], Val(q.args[k - 1], ix, m, d)))
  {
    hide Matches, Score;
    if !Matches(q.args[k - 1], ix, d) {
      TimesZero(q.weights[k - 1], Val(q.args[k - 1], ix, m, d));
      assert Times(q.weights[k - 1], Val(q.args[k - 1], ix, m, d)) == 0.0;
    } else {
      assert Score(q.args[k - 1], ix, m, d) == Some(Val(q.args[k - 1], ix, m, d));
      assert Times(q.weights[k - 1], Val(q.args[k - 1], ix, m, d)) == WeightAt(q, k - 1) * Val(q.args[k - 1], ix, m, d);
    }
  }

  lemma {:induction false} KeptAreArgs(args: seq<Qry>, w: seq<nat>)
    requires |w| == |args|
    ensures |KeptArgs(args, w)| == |KeptWeights(w)|
    ensures forall a :: a in KeptArgs(args, w) ==> a in args
  {
    if args != [] {
      var last := |args| - 1;
      KeptAreArgs(args[..last], w[..last]);
      assert forall a :: a in args[..last] ==> a in args;
    }
  }

  lemma {:induction false} KeptTotal(args: seq<Qry>, w: seq<nat>, ix: Index, m: Model, d: int)
    requires |w| == |args|
    ensures |KeptArgs(args, w)| == |KeptWeights(w)|
    ensures Weighted(KeptWeights(w), KeptArgs(args, w), ix, m, d) == Dot(w, Vals(args, ix, m, d))
  {
    hide Matches, Score, Val, Weighted;
    KeptAreArgs(args, w);
    if args == [] {
      WeightedNothing(ix, m, d);
    } else {
      var last := |args| - 1;
      var ka, kw := KeptArgs(args[..last], w[..last]), KeptWeights(w[..last]);
      KeptTotal(args[..last], w[..last], ix, m, d);
      assert Vals(args, ix, m, d)[..last] == Vals(args[..last], ix, m, d);
      WeightedAppend(kw, ka, w[last] as real, args[last], ix, m, d);
      assert ka + [] == ka && kw + [] == kw;
      if w[last] == 0 {
        TimesZero(0.0, Val(args[last], ix, m, d));
      }
    }
  }

  lemma WeightedNothing(ix: Index, m: Model, d: int)
    ensures Weighted([], [], ix, m, d) == 0.0
  {
  }

  lemma DuplicatesShareVals(args: seq<Qry>, ix: Index, m: Model, d: int)
    requires AgreeingDuplicates(args)
    ensures Shared(args, Vals(args, ix, m, d))
  {
    hide Matches, Score;
    forall i, j | 0 <= i < j < |args| && Duplicate(args[i], args[j])
      ensures Vals(args, ix, m, d)[i] == Vals(args, ix, m, d)[j]
    {
      SameAreTwins(args[i], args[j], ix, m);
    }
  }

  lemma SumScore(q: Qry, ix: Index, m: Model, d: int)
    requires q.Node? && q.op.SUM? && m.BM25?
    ensures Score(q, ix, m, d).Some? ==>
              Scored(q.args, ix, m, d) && Score(q, ix, m, d).value == Dot(Ones(|q.args|), Vals(q.args, ix, m, d))
  {
    var k := |q.args|;
    SumTotal(q, ix, m, d, k);
    assert q.args[..k] == q.args && Ones(k)[..k] == Ones(k) && Vals(q.args, ix, m, d)[..k] == Vals(q.args, ix, m, d);
    hide Matches, Val, Scored;
  }

  /** The share of x in a total; 0 where there is no positive total. */
  function Ratio(x: real, total: real): real {
    if total > 0.0 then x / total else 0.0
  }

  /** A WSUM may have more weights than arguments: all of them count in the total. */
  lemma WsumScore(q: Qry, ix: Index, m: Model, d: int)
    requires q.Node? && q.op.WSUM? && m.BM25? && |q.args| <= |q.weights| && Scored(q.args, ix, m, d)
    ensures Score(q, ix, m, d) == Some(Ratio(Weighted(q.weights[..|q.args|], q.args, ix, m, d), WeightSum(q.weights)))
  {
    var k := |q.args|;
    WsumTotal(q, ix, m, d, k);
    assert q.args[..k] == q.args;
    hide Matches, Val, Scored, WeightSum;
  }

  /** The converted node scores exactly 1/k of the original SUM with its k arguments. */
  lemma ConvertedScore(q: Qry, ix: Index, m: Model, d: int)
    requires q.Node? && q.op.SUM? && m.BM25? && 0 in Weights(q.args) && AgreeingDuplicates(q.args)
    requires Score(q, ix, m, d).Some?
    ensures Score(Converted(q), ix, m, d) == Some(Score(q, ix, m, d).value / |q.args| as real)
  {
    var k := |q.args|;
    var w := Weights(q.args);
    var c := Node(WSUM, "#WSUM", KeptArgs(q.args, w), KeptWeights(w));
    assert Converted(q) == c && k > 0;
    ConvertedTotal(q.args, ix, m, d);
    hide Matches, KeptWeights, KeptArgs, Val, Score, WeightSum, Scored, Weighted, Dot, Weights, Converted;
    SumScore(q, ix, m, d);
    KeptAreArgs(q.args, w);
    KeptScored(q.args, c.args, ix, m, d);
    WeightsSumToCount(q.args);
    assert c.weights[..|c.args|] == c.weights;
    WsumScore(c, ix, m, d);
  }

  lemma ConvertedTotal(args: seq<Qry>, ix: Index, m: Model, d: int)
    requires AgreeingDuplicates(args)
    ensures var w := Weights(args);
            && |KeptArgs(args, w)| == |KeptWeights(w)|
            && Weighted(KeptWeights(w), KeptArgs(args, w), ix, m, d) == Dot(Ones(|args|), Vals(args, ix, m, d))
  {
    hide Matches, KeptWeights, KeptArgs, Val, Score, Weighted, Dot;
    KeptTotal(args, Weights(args), ix, m, d);
    DuplicatesShareVals(args, ix, m, d);
    WeightsKeepDot(args, Ones(|args|), Vals(args, ix, m, d), 0);
  }

  lemma KeptScored(args: seq<Qry>, kept: seq<Qry>, ix: Index, m: Model, d: int)
    requires Scored(args, ix, m, d) && forall a :: a in kept ==> a in args
    ensures Scored(kept, ix, m, d)
  {
    hide Matches, Score;
    forall i | 0 <= i < |kept| && Matches(kept[i], ix, d) ensures Score(kept[i], ix, m, d).Some? {
      assert kept[i] in args;
    }
  }

  // ----- Matches

  function Hits(args: seq<Qry>, ix: Index, d: int): (v: seq<real>)
    ensures |v| == |args| && forall i :: 0 <= i < |v| ==> v[i] == if Matches(args[i], ix, d) then 1.0 else 0.0
  {
    seq(|args|, i requires 0 <= i < |args| => if Matches(args[i], ix, d) then 1.0 else 0.0)
  }

  predicate SomeMatch(args: seq<Qry>, ix: Index, d: int) {
    exists i :: 0 <= i < |args| && Matches(args[i], ix, d)
  }

  lemma {:induction false} KeptHits(args: seq<Qry>, w: seq<nat>, ix: Index, d: int)
    requires |w| == |args|
    ensures Dot(w, Hits(args, ix, d)) >= 0.0
    ensures Dot(w, Hits(args, ix, d)) > 0.0 <==> SomeMatch(KeptArgs(args, w), ix, d)
  {
    hide Matches;
    if args != [] {
      var last := |args| - 1;
      var kept := KeptArgs(args[..last], w[..last]);
      KeptHits(args[..last], w[..last], ix, d);
      assert Hits(args, ix, d)[..last] == Hits(args[..last], ix, d);
      LastHit(w[last], Matches(args[last], ix, d));
      if w[last] != 0 {
        assert KeptArgs(args, w) == kept + [args[last]];
        assert forall i :: 0 <= i < |kept| ==> (kept + [args[last]])[i] == kept[i];
        assert (kept + [args[last]])[|kept|] == args[last];
      } else {
        assert KeptArgs(args, w) == kept;
      }
    }
  }

  lemma LastHit(w: nat, hit: bool)
    ensures w as real * (if hit then 1.0 else 0.0) == if hit then w as real else 0.0
  {
  }

  lemma MatchesSomeArg(q: Qry, ix: Index, d: int)
    requires q.Node? && (q.op.SUM? || q.op.WSUM?)
    ensures Matches(q, ix, d) <==> SomeMatch(q.args, ix, d)
  {
  }

  lemma HitsShared(args: seq<Qry>, ix: Index, m: Model, d: int)
    requires AgreeingDuplicates(args)
    ensures Shared(args, Hits(args, ix, d))
  {
    hide Matches;
    forall i, j | 0 <= i < j < |args| && Duplicate(args[i], args[j])
      ensures Hits(args, ix, d)[i] == Hits(args, ix, d)[j]
    {
      SameAreTwins(args[i], args[j], ix, m);
    }
  }

  /** Conversion keeps the matching documents. */
  lemma ConvertedMatches(q: Qry, ix: Index, m: Model, d: int)
    requires q.Node? && q.op.SUM? && AgreeingDuplicates(q.args)
    ensures Matches(Converted(q), ix, d) == Matches(q, ix, d)
  {
    hide Matches, SomeMatch, Weights, KeptArgs, KeptWeights, Dot, Shared, AgreeingDuplicates, Hits;
    if 0 in Weights(q.args) {
      var v := Hits(q.args, ix, d);
      HitsShared(q.args, ix, m, d);
      WeightsAreFrom(q.args);
      WeightsKeepDot(q.args, Ones(|q.args|), v, 0);
      KeptHits(q.args, Weights(q.args), ix, d);
      KeptHits(q.args, Ones(|q.args|), ix, d);
      OnesKeepAll(q.args, Ones(|q.args|));
      MatchesSomeArg(q, ix, d);
      MatchesSomeArg(Converted(q), ix, d);
    }
  }

  lemma WeightsAreFrom(args: seq<Qry>)
    ensures Weights(args) == WeightsFrom(args, Ones(|args|), 0)
  {
  }

  lemma {:induction false} OnesKeepAll(args: seq<Qry>, w: seq<nat>)
    requires |w| == |args| && forall i :: 0 <= i < |w| ==> w[i] == 1
    ensures KeptArgs(args, w) == args
  {
    if args != [] {
      OnesKeepAll(args[..|args| - 1], w[..|w| - 1]);
    }
  }

  /** The score itself survives conversion exactly where it is zero: otherwise it shrinks. */
  lemma ConvertedScoreExact(q: Qry, ix: Index, m: Model, d: int)
    requires q.Node? && q.op.SUM? && m.BM25? && 0 in Weights(q.args) && AgreeingDuplicates(q.args)
    requires Score(q, ix, m, d).Some?
    ensures Score(Converted(q), ix, m, d) == Score(q, ix, m, d) <==> Score(q, ix, m, d).value == 0.0
  {
    ConvertedScore(q, ix, m, d);
    ZeroWeightMeansDuplicate(q.args);
    Shrinks(Score(q, ix, m, d).value, |q.args|);
    hide Score, Weights;
  }

  lemma Shrinks(x: real, k: nat)
    requires k >= 2
    ensures x / k as real == x <==> x == 0.0
  {
    var y := x / k as real;
    assert y * k as real == x;
    if y == x {
      assert x * (k as real - 1.0) == 0.0;
    }
  }

  // ----- Flat queries

  predicate ScoredTerm(a: Qry) {
    a.Node? && a.op.SCORE? && |a.args| == 1 && a.args[0].Term?
  }

  /** A bag of words: a SUM of scored terms. */
  predicate BagOfWords(q: Qry) {
    q.Node? && q.op.SUM? && q.args != [] && forall i :: 0 <= i < |q.args| ==> ScoredTerm(q.args[i])
  }

  /** What the optimizer divides the scores of a bag of words by. */
  function Divisor(q: Qry): (c: nat)
    requires BagOfWords(q)
    ensures c > 0
  {
    if NoDuplicates(q.args) then 1 else |q.args|
  }

  lemma ScoredTermNormal(a: Qry)
    requires ScoredTerm(a)
    ensures Normal(a) && WellTyped(a)
  {
  }

  lemma ScoredTermsSame(a: Qry, b: Qry)
    requires ScoredTerm(a) && ScoredTerm(b) && Duplicate(a, b)
    ensures Same(a, b)
  {
    assert Duplicate(a.args[0], b.args[0]);
  }

  lemma BagIsNormal(q: Qry)
    requires BagOfWords(q)
    ensures AgreeingDuplicates(q.args) && forall i :: 0 <= i < |q.args| ==> Normal(q.args[i])
    ensures Optimize(q) == Some(Collapsed(Converted(q)))
  {
    hide Converted, Duplicate, Same, Normal, Collapsed;
    forall i | 0 <= i < |q.args| ensures Normal(q.args[i]) {
      ScoredTermNormal(q.args[i]);
    }
    forall i, j | 0 <= i < j < |q.args| && Duplicate(q.args[i], q.args[j]) ensures Same(q.args[i], q.args[j]) {
      ScoredTermsSame(q.args[i], q.args[j]);
    }
    NormalArgsOptimized(q.args);
    OptimizeNode(q);
    assert Node(q.op, q.name, q.args, q.weights) == q;
  }

  lemma BagConverted(q: Qry, ix: Index, m: Model, d: int)
    requires BagOfWords(q) && m.BM25?
    ensures Matches(Converted(q), ix, d) == Matches(q, ix, d)
    ensures Matches(q, ix, d) && Score(q, ix, m, d).Some? ==>
              Score(Converted(q), ix, m, d) == Some(Score(q, ix, m, d).value / Divisor(q) as real)
  {
    hide Matches, Score, Weights, KeptArgs, KeptWeights, NoDuplicates, AgreeingDuplicates, Optimize;
    BagIsNormal(q);
    ZeroWeightMeansDuplicate(q.args);
    ConvertedMatches(q, ix, m, d);
    if Score(q, ix, m, d).Some? {
      if 0 in Weights(q.args) {
        ConvertedScore(q, ix, m, d);
      } else {
        assert Converted(q) == q && Divisor(q) == 1;
        DividedByOne(Score(q, ix, m, d).value);
      }
    }
  }

  lemma DividedByOne(x: real)
    ensures x / (1 as nat) as real == x
  {
  }

  /** The optimizer divides every score of a bag of words by the same constant. */
  lemma BagScaled(q: Qry, ix: Index, m: Model, d: int)
    requires ValidIndex(ix) && BagOfWords(q) && m.BM25?
    ensures Optimize(q).Some?
    ensures Matches(Optimize(q).value, ix, d) == Matches(q, ix, d)
    ensures Matches(q, ix, d) && Score(q, ix, m, d).Some? ==>
              Score(Optimize(q).value, ix, m, d) == Some(Score(q, ix, m, d).value / Divisor(q) as real)
  {
    hide Matches, Score, Weights, Optimize, KeptArgs, KeptWeights;
    BagIsNormal(q);
    BagConverted(q, ix, m, d);
    var c := Converted(q);
    if |c.args| == 1 {
      BagCollapses(q, ix, m);
      assert !c.IsIop();
    }
  }

  lemma BagCollapses(q: Qry, ix: Index, m: Model)
    requires ValidIndex(ix) && BagOfWords(q) && m.BM25? && Converted(q).Node? && |Converted(q).args| == 1
    ensures Agree(Converted(q), Converted(q).args[0], ix, m)
  {
    var c := Converted(q);
    KeptAreArgs(q.args, Weights(q.args));
    WeightsSumToCount(q.args);
    assert c.args[0] in q.args;
    assert c.op.WSUM? ==> |c.weights| == 1 && WeightSum(c.weights) == |q.args| as real;
    hide Converted, Weights, KeptArgs, KeptWeights, Matches, Score;
    if c.op.WSUM? {
      SingleWeight(c.weights);
    }
    SingleBag(c, m);
    SingleAgrees(c, ix, m);
  }

  lemma SingleBag(c: Qry, m: Model)
    requires c.Node? && (c.op.SUM? || c.op.WSUM?) && |c.args| == 1 && ScoredTerm(c.args[0]) && m.BM25?
    requires c.op.WSUM? ==> |c.weights| == 1 && c.weights[0] > 0.0
    ensures WellTyped(c) && Supported(c, m) && SoundSingle(c)
  {
    ScoredTermNormal(c.args[0]);
  }

  /** So the optimized bag of words ranks any two documents as the original does, ties included. */
  lemma BagKeepsOrder(q: Qry, ix: Index, m: Model, d: int, e: int)
    requires ValidIndex(ix) && BagOfWords(q) && m.BM25? && Matches(q, ix, d) && Matches(q, ix, e)
    requires Score(q, ix, m, d).Some? && Score(q, ix, m, e).Some?
    ensures Optimize(q).Some?
    ensures var r := Optimize(q).value;
            && Score(r, ix, m, d).Some? && Score(r, ix, m, e).Some?
            && (Score(r, ix, m, d).value < Score(r, ix, m, e).value
                <==> Score(q, ix, m, d).value < Score(q, ix, m, e).value)
            && (Score(r, ix, m, d).value == Score(r, ix, m, e).value
                <==> Score(q, ix, m, d).value == Score(q, ix, m, e).value)
  {
    BagScaled(q, ix, m, d);
    BagScaled(q, ix, m, e);
    hide Score, Matches;
    DivisionKeepsOrder(Score(q, ix, m, d).value, Score(q, ix, m, e).value, Divisor(q));
  }

  lemma DivisionKeepsOrder(x: real, y: real, c: nat)
    requires c > 0
    ensures x / c as real < y / c as real <==> x < y
    ensures x / c as real == y / c as real <==> x == y
  {
    var p, r := x / c as real, y / c as real;
    assert p * c as real == x && r * c as real == y;
    assert p < r ==> p * c as real < r * c as real;
    assert r < p ==> r * c as real < p * c as real;
  }
}
