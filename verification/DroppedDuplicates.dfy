/** The score once the second of two duplicates was dropped: when it is exactly half of what it was. */
module DroppedDuplicates {
  import opened Wrappers
  import opened QueryTree
  import opened Semantics
  import opened Optimizer
  import opened OptimizerLaws
  import opened OptimizerPruning
  import opened SumConversion
  import opened WsumGaps
  import opened OptimizerGaps
  import LeafScores
  import Search
  import Sweeps
  import Window

  function Pair(a: Qry, b: Qry): Qry {
    Node(SUM, "#SUM", [a, b], [])
  }

  /** A match of the first query that has a score is a match of the second with half that score. */
  ghost predicate Halved(q: Qry, o: Qry, ix: Index, m: Model, d: int) {
    Matches(q, ix, d) && Score(q, ix, m, d).Some? ==>
      Matches(o, ix, d) && Score(o, ix, m, d) == Some(Score(q, ix, m, d).value / 2.0)
  }

  lemma PairMatches(a: Qry, b: Qry, ix: Index, d: int)
    ensures Matches(Pair(a, b), ix, d) <==> Matches(a, ix, d) || Matches(b, ix, d)
  {
    var q := Pair(a, b);
    assert q.args[0] == a && q.args[1] == b;
  }

  lemma PairScore(a: Qry, b: Qry, ix: Index, m: Model, d: int)
    requires m.BM25? && Score(Pair(a, b), ix, m, d).Some?
    ensures Matches(a, ix, d) ==> Score(a, ix, m, d) == Some(Val(a, ix, m, d))
    ensures Matches(b, ix, d) ==> Score(b, ix, m, d) == Some(Val(b, ix, m, d))
    ensures Score(Pair(a, b), ix, m, d).value == Val(a, ix, m, d) + Val(b, ix, m, d)
  {
    var q := Pair(a, b);
    assert q.args[0] == a && q.args[1] == b;
    SumScore(q, ix, m, d);
    var v := Vals(q.args, ix, m, d);
    hide Matches, Score;
    DotOfTwo(v);
  }

  lemma DotOfTwo(v: seq<real>)
    requires |v| == 2
    ensures Dot(Ones(2), v) == v[0] + v[1]
  {
    var w := Ones(2);
    assert Dot(w[..1], v[..1]) == Dot(w[..1][..0], v[..1][..0]) + 1.0 * v[0];
    assert Dot(w, v) == Dot(w[..1], v[..1]) + 1.0 * v[1];
  }

  /** Of two duplicates that are optimized already, what is left scores half exactly where both were worth the same. */
  lemma DroppedHalvesExactly(a: Qry, b: Qry, ix: Index, m: Model, d: int)
    requires Normal(a) && Normal(b) && Duplicate(a, b) && m.BM25?
    ensures Optimize(Pair(a, b)) == Some(a)
    ensures Halved(Pair(a, b), a, ix, m, d) <==>
            (Matches(Pair(a, b), ix, d) && Score(Pair(a, b), ix, m, d).Some? ==>
               Matches(a, ix, d) && Val(a, ix, m, d) == Val(b, ix, m, d))
  {
    hide Normal, Duplicate, Matches, Score, Optimize, Converted, Val;
    NormalIsFixed(a);
    NormalIsFixed(b);
    TwoOptimized(a, b, a, b);
    FinishedIsOptimized(Pair(a, b));
    PairConverted(a, b);
    if Score(Pair(a, b), ix, m, d).Some? {
      PairScore(a, b, ix, m, d);
    }
  }

  // ----- Phrases

  /** The sweep over equal lists accepts every position, whatever the size of the window. */
  lemma {:induction false} EqualLists(lists: seq<seq<int>>, n: int, k: int, heads: Sweeps.Tuple)
    requires n >= 1 && k >= 1 && |lists| > 0 && Sweeps.Cursors(lists, heads)
    requires forall i :: 0 <= i < |lists| ==> lists[i] == lists[0] && heads[i] == heads[0]
    ensures Window.Matches(lists, n, heads) == Window.Matches(lists, k, heads)
    decreases |lists[0]| - heads[0]
  {
    if !Sweeps.OutOfDoc(lists, heads) {
      var top, bottom := Window.Attained(lists, heads);
      assert Window.IsWindow(lists, n, heads) && Window.IsWindow(lists, k, heads);
      EqualLists(lists, n, k, Sweeps.Bump(heads));
    }
  }

  lemma NoReach(op: Op, terms: seq<string>, field: string, ix: Index, d: int)
    requires IsProximity(op) && |terms| > 1 && Reach(op, terms) == 0 && ValidIndex(ix)
    ensures Positions(Phrase(op, terms, field), ix, d) == []
  {
    var lists := Lists(terms, field, ix, d);
    PhrasePositions(op, terms, field, ix, d);
    ListsOrdered(terms, field, ix, d);
    hide Positions, Combine, Fits, Reach;
    MatchIffTuple(op, lists);
    if c :| Fits(op, lists, c) {
      FitsNeedsReach(op, terms, lists, c);
    }
  }

  lemma FitsNeedsReach(op: Op, terms: seq<string>, lists: seq<seq<int>>, c: Sweeps.Tuple)
    requires IsProximity(op) && |terms| == |lists| > 1 && Fits(op, lists, c)
    ensures Reach(op, terms) > 0
  {
    if op.WINDOW? {
      Window.Bounds(lists, c, 0);
    } else {
      assert 0 < Sweeps.At(lists, c, 1) - Sweeps.At(lists, c, 0) <= op.n;
    }
  }

  /** Phrases of one reach stand at the same positions of every document. */
  lemma ReachDecides(x: Op, y: Op, terms: seq<string>, field: string, ix: Index, d: int)
    requires IsProximity(x) && SameClass(x, y) && terms != [] && ValidIndex(ix) && Reach(x, terms) == Reach(y, terms)
    ensures Positions(Phrase(x, terms, field), ix, d) == Positions(Phrase(y, terms, field), ix, d)
  {
    hide Positions, Combine;
    if |terms| == 1 {
      OneTermMatches(x, terms, field, ix, d);
      OneTermMatches(y, terms, field, ix, d);
    } else if Reach(x, terms) == 0 {
      NoReach(x, terms, field, ix, d);
      NoReach(y, terms, field, ix, d);
    } else if x.WINDOW? && AllEqual(terms) {
      var lists := Lists(terms, field, ix, d);
      PhrasePositions(x, terms, field, ix, d);
      PhrasePositions(y, terms, field, ix, d);
      forall i | 0 <= i < |lists| ensures lists[i] == lists[0] {
        assert terms[i] == terms[0];
      }
      EqualLists(lists, x.n, y.n, Sweeps.Start(lists));
      WindowCombined(x, lists);
      WindowCombined(y, lists);
    } else {
      assert x == y;
    }
  }

  lemma WindowCombined(op: Op, lists: seq<seq<int>>)
    requires op.WINDOW? && lists != []
    ensures Combine(op, lists) == Window.Matches(lists, op.n, Sweeps.Start(lists))
  {
  }

  /** Where two inverted-list nodes have the same positions in every document, they score the same. */
  lemma SamePositionsSameScore(p: Qry, q: Qry, ix: Index, m: Model, d: int)
    requires p.IsIop() && q.IsIop() && FieldOf(p) == FieldOf(q) && m.BM25?
    requires forall e :: Positions(p, ix, e) == Positions(q, ix, e)
    ensures var a, b := Node(SCORE, "#SCORE", [p], []), Node(SCORE, "#SCORE", [q], []);
            Score(a, ix, m, d) == Score(b, ix, m, d) && Matches(a, ix, d) == Matches(b, ix, d)
  {
    hide Positions, Bm25Weight;
    var a, b := Node(SCORE, "#SCORE", [p], []), Node(SCORE, "#SCORE", [q], []);
    assert a.args[0] == p && b.args[0] == q;
    assert Docs(p, ix) == Docs(q, ix);
    assert LeafScore(p, ix, m, d) == LeafScore(q, ix, m, d);
    ScoreOfLeaf(a, ix, m, d);
    ScoreOfLeaf(b, ix, m, d);
  }

  lemma ScoreOfLeaf(a: Qry, ix: Index, m: Model, d: int)
    requires a.Node? && a.op.SCORE? && a.args != [] && a.args[0].IsIop()
    ensures Score(a, ix, m, d) == LeafScore(a.args[0], ix, m, d)
    ensures Matches(a, ix, d) <==> Positions(a.args[0], ix, d) != []
  {
  }

  /** In the collection of one document nothing that matches is worth 0. */
  lemma SpreadIsWorth(p: Qry, op: Op, terms: seq<string>, field: string, m: Model)
    requires IsProximity(op) && op.n > 0 && terms != [] && p.IsIop() && m.BM25? && LeafScores.ParametersInRange(m)
    ensures var ix, a := Spread(op, terms, field), Node(SCORE, "#SCORE", [p], []);
            && (Matches(a, ix, 0) ==> Val(a, ix, m, 0) != 0.0)
            && (!Matches(a, ix, 0) ==> Val(a, ix, m, 0) == 0.0)
  {
    hide Positions, Bm25Weight;
    var ix, a := Spread(op, terms, field), Node(SCORE, "#SCORE", [p], []);
    ScoreOfLeaf(a, ix, m, 0);
    if Positions(p, ix, 0) != [] {
      assert Docs(p, ix) == {0};
      var length := (|terms| * op.n) as real;
      assert AvgDocLen(ix, FieldName(p)) == length by { assert length / 1.0 == length; }
      assert Idf(ix, 1) == 2.0 / 1.5;
      WorthSomething(m, length, |Positions(p, ix, 0)|, |terms| * op.n);
    }
  }

  lemma WorthSomething(m: Model, avg: real, tf: nat, length: nat)
    requires m.BM25? && LeafScores.ParametersInRange(m) && tf > 0 && avg == length as real
    ensures var w := Bm25Weight(m, 2.0 / 1.5, avg, tf, length); w.Some? && w.value != 0.0
  {
    if avg != 0.0 {
      LeafScores.NormNotNegative(m.k1, m.b, length as real, avg);
    }
    var norm := if avg == 0.0 then m.k1 else m.k1 * ((1.0 - m.b) + m.b * (length as real / avg));
    QuotientNotZero(tf as real, tf as real + norm);
    ProductNotZero(2.0 / 1.5, tf as real / (tf as real + norm));
  }

  lemma BothHaveScores(x: Op, y: Op, terms: seq<string>, field: string, ix: Index, m: Model, d: int)
    requires IsProximity(x) && SameClass(x, y) && m.BM25?
    requires LeafScores.ParametersInRange(m) && LeafScores.LengthsInRange(ix)
    requires Matches(Both(x, y, terms, field), ix, d)
    ensures Score(Both(x, y, terms, field), ix, m, d).Some?
  {
    var q := Both(x, y, terms, field);
    assert WellTyped(Phrase(x, terms, field)) && WellTyped(Phrase(y, terms, field));
    assert WellTyped(q.args[0]) && WellTyped(q.args[1]);
    Search.AllScoredInRange(q, ix, m);
  }

  lemma LeftScore(op: Op, terms: seq<string>, field: string, ix: Index, m: Model, d: int)
    requires IsProximity(op) && terms != [] && Reach(op, terms) > 0 && ValidIndex(ix) && m.BM25?
    ensures var a, o := ScoredPhrase(op, terms, field), Left(op, terms, field);
            Score(o, ix, m, d) == Score(a, ix, m, d) && Matches(o, ix, d) == Matches(a, ix, d)
  {
    hide Positions, Score, Matches;
    if |terms| == 1 {
      var p, t := Phrase(op, terms, field), Term(terms[0], field);
      forall e ensures Positions(p, ix, e) == Positions(t, ix, e) {
        OneTermMatches(op, terms, field, ix, e);
      }
      assert FieldOf(p) == FieldOf(t);
      SamePositionsSameScore(p, t, ix, m, d);
    }
  }

  /** Phrases of one reach: dropping the second halves every score. */
  lemma EqualReachHalves(x: Op, y: Op, terms: seq<string>, field: string, ix: Index, m: Model, d: int)
    requires IsProximity(x) && SameClass(x, y) && terms != [] && ValidIndex(ix) && m.BM25?
    requires Reach(x, terms) == Reach(y, terms)
    ensures Halved(Both(x, y, terms, field), Left(x, terms, field), ix, m, d)
  {
    hide Positions, Reach, Matches, Score, Left;
    var p, q := Phrase(x, terms, field), Phrase(y, terms, field);
    var a, b := ScoredPhrase(x, terms, field), ScoredPhrase(y, terms, field);
    forall e ensures Positions(p, ix, e) == Positions(q, ix, e) {
      ReachDecides(x, y, terms, field, ix, e);
    }
    assert FieldOf(p) == FieldOf(q);
    SamePositionsSameScore(p, q, ix, m, d);
    BothMatch(x, y, terms, field, ix, d);
    if Matches(a, ix, d) && Score(Both(x, y, terms, field), ix, m, d).Some? {
      MatchNeedsReach(x, terms, field, ix, d);
      LeftScore(x, terms, field, ix, m, d);
      PairScore(a, b, ix, m, d);
    }
  }

  lemma MatchNeedsReach(op: Op, terms: seq<string>, field: string, ix: Index, d: int)
    requires IsProximity(op) && terms != [] && ValidIndex(ix) && Matches(ScoredPhrase(op, terms, field), ix, d)
    ensures Reach(op, terms) > 0
  {
    hide Positions;
    ScoreOfLeaf(ScoredPhrase(op, terms, field), ix, UnrankedBoolean, d);
    if |terms| == 1 {
      OneTermMatches(op, terms, field, ix, d);
    } else if Reach(op, terms) == 0 {
      NoReach(op, terms, field, ix, d);
    }
  }

  /** Phrases of different reach: there is a collection in which the score is lost or not halved. */
  lemma OtherReachShows(x: Op, y: Op, terms: seq<string>, field: string, m: Model)
    requires IsProximity(x) && SameClass(x, y) && terms != [] && m.BM25? && LeafScores.ParametersInRange(m)
    requires Reach(x, terms) != Reach(y, terms)
    ensures exists ix, d :: ValidIndex(ix) && !Halved(Both(x, y, terms, field), Left(x, terms, field), ix, m, d)
  {
    hide Positions, Reach, Val, Matches, Score, Left;
    var q, o := Both(x, y, terms, field), Left(x, terms, field);
    var a, b := ScoredPhrase(x, terms, field), ScoredPhrase(y, terms, field);
    var larger := if Reach(x, terms) < Reach(y, terms) then y else x;
    FartherReach(x, y, terms);
    FartherReach(y, x, terms);
    var ix := Spread(larger, terms, field);
    if larger == x {
      FartherOnly(y, x, terms, field);
    } else {
      FartherOnly(x, y, terms, field);
    }
    BothMatch(x, y, terms, field, ix, 0);
    SpreadLengths(larger, terms, field);
    BothHaveScores(x, y, terms, field, ix, m, 0);
    PairScore(a, b, ix, m, 0);
    SpreadIsWorth(Phrase(x, terms, field), larger, terms, field, m);
    SpreadIsWorth(Phrase(y, terms, field), larger, terms, field, m);
    if |terms| == 1 {
      LeftIsTerm(x, larger, terms, field);
      LeftScore(larger, terms, field, ix, m, 0);
    } else {
      LeftOfMany(x, terms, field);
    }
    assert !Halved(q, o, ix, m, 0);
  }

  lemma FartherReach(x: Op, y: Op, terms: seq<string>)
    requires IsProximity(x) && SameClass(x, y)
    ensures Reach(x, terms) < Reach(y, terms) ==> y.n > 0
  {
  }

  lemma SpreadLengths(op: Op, terms: seq<string>, field: string)
    requires IsProximity(op) && op.n > 0 && terms != []
    ensures LeafScores.LengthsInRange(Spread(op, terms, field))
  {
  }

  /** Of two phrases only the one that reaches farther matches the document made for it. */
  lemma FartherOnly(x: Op, y: Op, terms: seq<string>, field: string)
    requires IsProximity(x) && SameClass(x, y) && terms != [] && Reach(x, terms) < Reach(y, terms) && y.n > 0
    ensures ValidIndex(Spread(y, terms, field))
    ensures Matches(ScoredPhrase(y, terms, field), Spread(y, terms, field), 0)
    ensures !Matches(ScoredPhrase(x, terms, field), Spread(y, terms, field), 0)
  {
    hide Matches, ScoredPhrase, Left;
    if |terms| == 1 {
      var ix := Spread(y, terms, field);
      SpreadValid(y, terms, field);
      OneTermMatches(x, terms, field, ix, 0);
      OneTermMatches(y, terms, field, ix, 0);
      TermPresent(y, terms, field);
    } else {
      SpreadMatches(x, y, terms, field);
    }
  }

  lemma TermPresent(op: Op, terms: seq<string>, field: string)
    requires op.WINDOW? && op.n > 0 && |terms| == 1
    ensures Matches(Left(op, terms, field), Spread(op, terms, field), 0)
  {
    SpreadValid(op, terms, field);
    hide Spread;
    assert Lists(terms, field, Spread(op, terms, field), 0)[0] == [0];
  }

  /** Dropping the second phrase halves every score of every collection if and only if both reach equally far. */
  lemma DroppedPhraseHalves(x: Op, y: Op, terms: seq<string>, field: string, m: Model)
    requires IsProximity(x) && SameClass(x, y) && terms != [] && m.BM25? && LeafScores.ParametersInRange(m)
    ensures Optimize(Both(x, y, terms, field)).Some?
    ensures var q := Both(x, y, terms, field);
            (forall ix, d :: ValidIndex(ix) ==> Halved(q, Optimize(q).value, ix, m, d))
            <==> Reach(x, terms) == Reach(y, terms)
  {
    hide Optimize, Both, Left, Reach, Halved;
    SecondDropped(x, y, terms, field);
    if Reach(x, terms) == Reach(y, terms) {
      forall ix, d | ValidIndex(ix) ensures Halved(Both(x, y, terms, field), Left(x, terms, field), ix, m, d) {
        EqualReachHalves(x, y, terms, field, ix, m, d);
      }
    } else {
      OtherReachShows(x, y, terms, field, m);
    }
  }

  // ----- Weights of a WSUM

  /** Two WSUMs over the same different words. */
  predicate SameWords(args: seq<Qry>, u: seq<real>, v: seq<real>) {
    && |u| == |v| == |args| > 1
    && (forall i :: 0 <= i < |args| ==> ScoredTerm(args[i]))
    && (forall i, j :: 0 <= i < j < |args| ==> args[i].args[0] != args[j].args[0])
  }

  function Wsum(args: seq<Qry>, w: seq<real>): Qry {
    Node(WSUM, "#WSUM", args, w)
  }

  /** What the weights amount to: their shares in the total. */
  function Shares(w: seq<real>, total: real): (r: seq<real>)
    ensures |r| == |w| && forall i :: 0 <= i < |r| ==> r[i] == Ratio(w[i], total)
  {
    seq(|w|, i requires 0 <= i < |w| => Ratio(w[i], total))
  }

  lemma RatioAdds(x: real, y: real, total: real)
    ensures Ratio(x + y, total) == Ratio(x, total) + Ratio(y, total)
  {
    if total > 0.0 {
      var p, q := x / total, y / total;
      assert (p + q) * total == x + y;
    }
  }

  lemma RatioTimes(x: real, y: real, total: real)
    ensures Ratio(Times(x, y), total) == Times(Ratio(x, total), y)
  {
    if total > 0.0 {
      var p := x / total;
      assert p * y * total == x * y;
    }
  }

  /** A weighted sum over a total is the sum weighted with the shares. */
  lemma {:induction false} SharesWeigh(w: seq<real>, args: seq<Qry>, total: real, ix: Index, m: Model, d: int)
    requires |w| == |args|
    ensures Ratio(Weighted(w, args, ix, m, d), total) == Weighted(Shares(w, total), args, ix, m, d)
  {
    hide Val, Times, Ratio, Weighted;
    if args == [] {
      WeightedNothing(ix, m, d);
      RatioOfNothing(total);
    } else {
      var last := |args| - 1;
      SharesWeigh(w[..last], args[..last], total, ix, m, d);
      assert Shares(w, total)[..last] == Shares(w[..last], total);
      WeightedLast(w, args, ix, m, d);
      WeightedLast(Shares(w, total), args, ix, m, d);
      RatioAdds(Weighted(w[..last], args[..last], ix, m, d), Times(w[last], Val(args[last], ix, m, d)), total);
      RatioTimes(w[last], Val(args[last], ix, m, d), total);
    }
  }

  lemma RatioOfNothing(total: real)
    ensures Ratio(0.0, total) == 0.0
  {
  }

  lemma WsumsDuplicate(args: seq<Qry>, u: seq<real>, v: seq<real>)
    requires SameWords(args, u, v)
    ensures Normal(Wsum(args, u)) && Duplicate(Wsum(args, u), Wsum(args, v))
    ensures FlatWsum(Wsum(args, u))
  {
    forall i | 0 <= i < |args| ensures Normal(args[i]) && Duplicate(args[i], args[i]) {
      ScoredTermNormal(args[i]);
      assert Duplicate(args[i].args[0], args[i].args[0]);
    }
    assert ScoredTerm(args[0]);
  }

  lemma WsumVal(args: seq<Qry>, w: seq<real>, ix: Index, m: Model, d: int)
    requires |w| == |args| && m.BM25? && Scored(args, ix, m, d)
    ensures Matches(Wsum(args, w), ix, d) ==>
              Val(Wsum(args, w), ix, m, d) == Weighted(Shares(w, WeightSum(w)), args, ix, m, d)
  {
    var q := Wsum(args, w);
    assert q.weights[..|q.args|] == w;
    WsumScore(q, ix, m, d);
    SharesWeigh(w, args, WeightSum(w), ix, m, d);
    hide Matches, Score, Weighted, Ratio, WeightSum, Scored;
  }

  lemma WsumsMatch(args: seq<Qry>, u: seq<real>, v: seq<real>, ix: Index, d: int)
    ensures Matches(Wsum(args, u), ix, d) == Matches(Wsum(args, v), ix, d)
  {
    MatchesSomeArg(Wsum(args, u), ix, d);
    MatchesSomeArg(Wsum(args, v), ix, d);
    hide Matches, SomeMatch;
  }

  /**
   Of two WSUMs over the same words the second is dropped, whatever the weights: every score of every collection
   is halved if and only if each word has the same share in both.
   */
  lemma DroppedWsumHalves(args: seq<Qry>, u: seq<real>, v: seq<real>, m: Model)
    requires SameWords(args, u, v) && m.BM25?
    ensures var q := Pair(Wsum(args, u), Wsum(args, v));
            && Optimize(q) == Some(Wsum(args, u))
            && ((forall ix, d :: ValidIndex(ix) ==> Halved(q, Wsum(args, u), ix, m, d))
                <==> Shares(u, WeightSum(u)) == Shares(v, WeightSum(v)))
  {
    hide Optimize, Halved, Shares, WeightSum, Normal, Duplicate;
    var a, b := Wsum(args, u), Wsum(args, v);
    WsumsDuplicate(args, u, v);
    WsumsDuplicate(args, v, u);
    DroppedHalvesExactly(a, b, OnlyTerm(Term("", ""), m), m, 0);
    if Shares(u, WeightSum(u)) == Shares(v, WeightSum(v)) {
      forall ix, d | ValidIndex(ix) ensures Halved(Pair(a, b), a, ix, m, d) {
        DroppedHalvesExactly(a, b, ix, m, d);
        EqualSharesHalve(args, u, v, ix, m, d);
      }
    } else {
      OtherSharesShow(args, u, v, m);
    }
  }

  lemma EqualSharesHalve(args: seq<Qry>, u: seq<real>, v: seq<real>, ix: Index, m: Model, d: int)
    requires SameWords(args, u, v) && m.BM25? && Shares(u, WeightSum(u)) == Shares(v, WeightSum(v))
    ensures var a, b := Wsum(args, u), Wsum(args, v);
            Matches(Pair(a, b), ix, d) && Score(Pair(a, b), ix, m, d).Some? ==>
              Matches(a, ix, d) && Val(a, ix, m, d) == Val(b, ix, m, d)
  {
    hide Matches, Score, Shares, WeightSum, Weighted, Val, Wsum;
    var a, b := Wsum(args, u), Wsum(args, v);
    WsumsMatch(args, u, v, ix, d);
    PairMatches(a, b, ix, d);
    if Matches(a, ix, d) && Score(Pair(a, b), ix, m, d).Some? {
      PairScore(a, b, ix, m, d);
      ArgsScored(args, u, ix, m, d);
      WsumVal(args, u, ix, m, d);
      WsumVal(args, v, ix, m, d);
    }
  }

  lemma ArgsScored(args: seq<Qry>, w: seq<real>, ix: Index, m: Model, d: int)
    requires m.BM25? && Score(Wsum(args, w), ix, m, d).Some?
    ensures Scored(args, ix, m, d)
  {
    WsumScored(Wsum(args, w), ix, m, d);
  }

  /** Where a share differs, the collection of that word alone shows it. */
  lemma OtherSharesShow(args: seq<Qry>, u: seq<real>, v: seq<real>, m: Model)
    requires SameWords(args, u, v) && m.BM25? && Shares(u, WeightSum(u)) != Shares(v, WeightSum(v))
    ensures exists ix, d :: ValidIndex(ix) && !Halved(Pair(Wsum(args, u), Wsum(args, v)), Wsum(args, u), ix, m, d)
  {
    hide Matches, Score, WeightSum, Weighted, Val, Halved, Ratio, OnlyTerm, Times;
    var a, b := Wsum(args, u), Wsum(args, v);
    var su, sv := Shares(u, WeightSum(u)), Shares(v, WeightSum(v));
    var i :| 0 <= i < |args| && su[i] != sv[i];
    var ix := OnlyTerm(args[i].args[0], m);
    WsumsDuplicate(args, u, v);
    WsumsDuplicate(args, v, u);
    OnlyTermValues(a, m, i);
    WsumsMatch(args, u, v, ix, 0);
    WsumVal(args, u, ix, m, 0);
    WsumVal(args, v, ix, m, 0);
    WeightedSingleOut(su, args, i, ix, m, 0);
    WeightedSingleOut(sv, args, i, ix, m, 0);
    SharesApart(su[i], sv[i], Val(args[i], ix, m, 0));
    PairScored(args, u, v, ix, m);
    PairMatches(a, b, ix, 0);
    DroppedHalvesExactly(a, b, ix, m, 0);
    assert !Halved(Pair(a, b), a, ix, m, 0);
  }

  lemma SharesApart(x: real, y: real, v: real)
    requires x != y && v != 0.0
    ensures Times(x, v) != Times(y, v)
  {
    ProductNotZero(x - y, v);
    assert (x - y) * v == x * v - y * v;
  }

  lemma PairScored(args: seq<Qry>, u: seq<real>, v: seq<real>, ix: Index, m: Model)
    requires |u| == |v| == |args| && m.BM25? && Scored(args, ix, m, 0)
    ensures Score(Pair(Wsum(args, u), Wsum(args, v)), ix, m, 0).Some?
  {
    var a, b := Wsum(args, u), Wsum(args, v);
    WsumScore(a, ix, m, 0);
    WsumScore(b, ix, m, 0);
    hide Matches, Scored, Weighted, WeightSum, Ratio;
    var q := Pair(a, b);
    assert q.args[0] == a && q.args[1] == b;
    SumTotal(q, ix, m, 0, 2);
    assert q.args[..2] == q.args;
    AllScoredTwo(q.args, ix, m, 0);
  }

  lemma AllScoredTwo(args: seq<Qry>, ix: Index, m: Model, d: int)
    requires |args| == 2 && Score(args[0], ix, m, d).Some? && Score(args[1], ix, m, d).Some?
    ensures Scored(args, ix, m, d)
  {
  }
}
