/** What the duplicate test does not look at: the distances of NEAR and the sizes of WINDOW. */
module OptimizerGaps {
  import opened Wrappers
  import opened Sequences
  import opened InvertedLists
  import opened QueryTree
  import opened Semantics
  import opened Optimizer
  import opened OptimizerLaws
  import opened OptimizerPruning
  import opened OptimizerMeaning
  import Sweeps
  import Near
  import Window

  predicate IsProximity(op: Op) {
    op.NEAR? || op.WINDOW?
  }

  function Words(terms: seq<string>, field: string): (r: seq<Qry>)
    ensures |r| == |terms| && forall i :: 0 <= i < |r| ==> r[i] == Term(terms[i], field)
  {
    seq(|terms|, i requires 0 <= i < |terms| => Term(terms[i], field))
  }

  /** #NEAR/n(t1 ... tk) or #WINDOW/n(t1 ... tk) */
  function Phrase(op: Op, terms: seq<string>, field: string): Qry {
    Node(op, if op.NEAR? then "#NEAR" else "#WINDOW", Words(terms, field), [])
  }

  /** A phrase as an argument of a score operator. */
  function ScoredPhrase(op: Op, terms: seq<string>, field: string): Qry {
    Node(SCORE, "#SCORE", [Phrase(op, terms, field)], [])
  }

  /** #SUM(#NEAR/n(t1 ... tk) #NEAR/m(t1 ... tk)), or the same with WINDOW */
  function Both(x: Op, y: Op, terms: seq<string>, field: string): Qry {
    Node(SUM, "#SUM", [ScoredPhrase(x, terms, field), ScoredPhrase(y, terms, field)], [])
  }

  /** What is left of a phrase: one over a single term is that term. */
  function Left(op: Op, terms: seq<string>, field: string): Qry
    requires terms != []
  {
    if |terms| == 1 then Node(SCORE, "#SCORE", [Term(terms[0], field)], []) else ScoredPhrase(op, terms, field)
  }

  /** Whatever the distances, the second phrase is taken for a duplicate of the first and is dropped. */
  lemma SecondDropped(x: Op, y: Op, terms: seq<string>, field: string)
    requires IsProximity(x) && SameClass(x, y) && terms != []
    ensures Optimize(Both(x, y, terms, field)) == Some(Left(x, terms, field))
  {
    var a, b := Left(x, terms, field), Left(y, terms, field);
    PhraseOptimized(x, terms, field);
    PhraseOptimized(y, terms, field);
    PhrasesDuplicate(x, y, terms, field);
    hide Duplicate, Left, ScoredPhrase, Optimize, Converted;
    TwoOptimized(ScoredPhrase(x, terms, field), ScoredPhrase(y, terms, field), a, b);
    FinishedIsOptimized(Both(x, y, terms, field));
    PairConverted(a, b);
  }

  lemma TwoOptimized(x: Qry, y: Qry, a: Qry, b: Qry)
    requires Optimize(x) == Some(a) && Optimize(y) == Some(b)
    ensures OptimizedArgs([x, y]) == [a, b]
  {
    hide Optimize;
    assert [x, y][1..] == [y] && [y][1..] == [];
    assert OptimizedArgs([y]) == [b];
    assert OptimizedArgs([x, y]) == [a] + [b];
  }

  lemma PhraseOptimized(op: Op, terms: seq<string>, field: string)
    requires IsProximity(op) && terms != []
    ensures Optimize(ScoredPhrase(op, terms, field)) == Some(Left(op, terms, field))
  {
    var phrase := Phrase(op, terms, field);
    NormalArgsOptimized(phrase.args);
    FinishedIsOptimized(phrase);
    var left := if |terms| == 1 then phrase.args[0] else phrase;
    assert Optimize(phrase) == Some(left);
    hide Optimize, Words;
    assert [phrase][1..] == [] && OptimizedArgs([phrase]) == [left];
    FinishedIsOptimized(ScoredPhrase(op, terms, field));
  }

  lemma PhrasesDuplicate(x: Op, y: Op, terms: seq<string>, field: string)
    requires SameClass(x, y) && terms != []
    ensures Duplicate(Left(x, terms, field), Left(y, terms, field))
  {
    if |terms| >= 2 {
      assert Duplicate(Phrase(x, terms, field), Phrase(y, terms, field));
    }
  }

  lemma PairConverted(a: Qry, b: Qry)
    requires Duplicate(a, b)
    ensures Collapsed(Converted(Node(SUM, "#SUM", [a, b], []))) == a
  {
    hide Duplicate;
    PairWeights(a, b);
    assert [a, b][..1] == [a] && [2, 0][..1] == [2] && [a][..0] == [] && [2][..0] == [];
    assert KeptArgs([a, b], [2, 0]) == KeptArgs([a], [2]) == [a];
  }

  lemma PairWeights(a: Qry, b: Qry)
    requires Duplicate(a, b)
    ensures Weights([a, b]) == [2, 0]
  {
    hide Duplicate;
    var args := [a, b];
    assert Ones(2) == [1, 1];
    assert [1, 1][1 := 0][0 := 2] == [2, 0];
    assert Absorb(args, [1, 1], 0, 1) == Absorb(args, [2, 0], 0, 2) == [2, 0];
    assert WeightsFrom(args, [2, 0], 1) == WeightsFrom(args, [2, 0], 2) == [2, 0];
    assert WeightsFrom(args, Ones(2), 0) == WeightsFrom(args, Absorb(args, [1, 1], 0, 1), 1);
  }

  // ----- What the dropped phrase matched

  predicate AllEqual(terms: seq<string>) {
    forall i :: 0 <= i < |terms| ==> terms[i] == terms[0]
  }

  /**
   What a distance amounts to: one below 1 asks for what is never there, NEAR over a single term has no gap to
   bound, and WINDOW over a single term, however often it is written, spans one position.
   */
  function Reach(op: Op, terms: seq<string>): nat
    requires IsProximity(op)
  {
    if op.NEAR? && |terms| == 1 then 1
    else if op.n <= 0 then 0
    else if op.WINDOW? && AllEqual(terms) then 1
    else op.n
  }

  /**
   Dropping it keeps the matches of every collection if and only if the first distance reaches as far as the
   second; of phrases over a single term, which become that term, one must match it.
   */
  lemma DroppedPhraseCovered(x: Op, y: Op, terms: seq<string>, field: string)
    requires IsProximity(x) && SameClass(x, y) && terms != []
    ensures Optimize(Both(x, y, terms, field)).Some?
    ensures var q := Both(x, y, terms, field);
            (forall ix, d :: ValidIndex(ix) ==> Matches(q, ix, d) == Matches(Optimize(q).value, ix, d))
            <==> if |terms| == 1 then Reach(x, terms) == 1 || Reach(y, terms) == 1
                 else Reach(y, terms) <= Reach(x, terms)
  {
    var q := Both(x, y, terms, field);
    SecondDropped(x, y, terms, field);
    hide Optimize, Matches, Both, Left, Reach;
    if |terms| == 1 {
      OneTermCovered(x, y, terms, field);
    } else {
      LeftOfMany(x, terms, field);
      if Reach(y, terms) <= Reach(x, terms) {
        forall ix, d | ValidIndex(ix) ensures Matches(q, ix, d) == Matches(Optimize(q).value, ix, d) {
          BothMatch(x, y, terms, field, ix, d);
          PhraseWidens(x, y, terms, field, ix, d);
        }
      } else {
        var ix := Spread(y, terms, field);
        BothMatch(x, y, terms, field, ix, 0);
        SpreadMatches(x, y, terms, field);
      }
    }
  }

  lemma LeftOfMany(op: Op, terms: seq<string>, field: string)
    requires |terms| > 1
    ensures Left(op, terms, field) == ScoredPhrase(op, terms, field)
  {
  }

  lemma OneTermCovered(x: Op, y: Op, terms: seq<string>, field: string)
    requires IsProximity(x) && SameClass(x, y) && |terms| == 1
    ensures var q, o := Both(x, y, terms, field), Left(x, terms, field);
            (forall ix, d :: ValidIndex(ix) ==> Matches(q, ix, d) == Matches(o, ix, d))
            <==> Reach(x, terms) == 1 || Reach(y, terms) == 1
  {
    hide Matches, Both, Left, Reach;
    var q, o := Both(x, y, terms, field), Left(x, terms, field);
    forall ix, d | ValidIndex(ix)
      ensures Matches(q, ix, d) <==> Matches(o, ix, d) && (Reach(x, terms) == 1 || Reach(y, terms) == 1)
    {
      BothMatch(x, y, terms, field, ix, d);
      OneTermMatches(x, terms, field, ix, d);
      OneTermMatches(y, terms, field, ix, d);
      LeftIsTerm(x, y, terms, field);
    }
    var ix := Spread(NEAR(1), terms, field);
    OneTermPresent(x, terms, field);
    assert ValidIndex(ix) && Matches(o, ix, 0);
  }

  lemma LeftIsTerm(x: Op, y: Op, terms: seq<string>, field: string)
    requires |terms| == 1
    ensures Left(x, terms, field) == Left(y, terms, field)
  {
  }

  lemma BothMatch(x: Op, y: Op, terms: seq<string>, field: string, ix: Index, d: int)
    ensures Matches(Both(x, y, terms, field), ix, d)
            <==> Matches(ScoredPhrase(x, terms, field), ix, d) || Matches(ScoredPhrase(y, terms, field), ix, d)
  {
    var q := Both(x, y, terms, field);
    assert q.args[0] == ScoredPhrase(x, terms, field) && q.args[1] == ScoredPhrase(y, terms, field);
  }

  /** A phrase over a single term matches where the term is, unless its reach is 0. */
  lemma OneTermMatches(op: Op, terms: seq<string>, field: string, ix: Index, d: int)
    requires IsProximity(op) && |terms| == 1 && ValidIndex(ix)
    ensures Positions(Phrase(op, terms, field), ix, d)
            == if Reach(op, terms) == 1 then Positions(Term(terms[0], field), ix, d) else []
    ensures Matches(ScoredPhrase(op, terms, field), ix, d)
            <==> Matches(Left(op, terms, field), ix, d) && Reach(op, terms) == 1
  {
    var q := Phrase(op, terms, field);
    PositionsOfNode(q, ix, d);
    PositionsOrdered(q.args[0], ix, d);
    assert ArgPositions(q, ix, d) == [Positions(q.args[0], ix, d)];
    SinglePositions(op, Positions(q.args[0], ix, d));
  }

  /** The position lists of the terms in a document. */
  function Lists(terms: seq<string>, field: string, ix: Index, d: int): (r: seq<seq<int>>)
    ensures |r| == |terms| && forall i :: 0 <= i < |r| ==> r[i] == PositionsIn(TermList(ix, terms[i], field), d)
  {
    seq(|terms|, i requires 0 <= i < |terms| => PositionsIn(TermList(ix, terms[i], field), d))
  }

  lemma PhrasePositions(op: Op, terms: seq<string>, field: string, ix: Index, d: int)
    requires IsProximity(op)
    ensures Positions(Phrase(op, terms, field), ix, d) == Combine(op, Lists(terms, field, ix, d))
    ensures Matches(ScoredPhrase(op, terms, field), ix, d) <==> Positions(Phrase(op, terms, field), ix, d) != []
  {
    var q := Phrase(op, terms, field);
    PositionsOfNode(q, ix, d);
    assert ArgPositions(q, ix, d) == Lists(terms, field, ix, d);
  }

  /** A tuple of positions that the operator accepts. */
  ghost predicate Fits(op: Op, lists: seq<seq<int>>, c: Sweeps.Tuple)
    requires IsProximity(op) && |lists| > 0
  {
    if op.NEAR? then Near.IsChain(lists, op.n, c) else Window.IsWindow(lists, op.n, c)
  }

  /** The sweeps find something exactly when there is something to find. */
  lemma MatchIffTuple(op: Op, lists: seq<seq<int>>)
    requires IsProximity(op) && Sweeps.Ordered(lists) && |lists| > 0
    ensures Combine(op, lists) != [] <==> exists c :: Fits(op, lists, c)
  {
    hide Near.Matches, Near.IsChain, Window.Matches, Window.IsWindow, Sweeps.Ordered;
    var matches, start := Combine(op, lists), Sweeps.Start(lists);
    if op.NEAR? {
      Near.NearIsSoundAndMaximum(lists, op.n, matches);
      if matches != [] {
        var chains :| Near.ChainFamily(lists, op.n, start, chains) && |chains| == |matches|;
        assert Fits(op, lists, chains[0]);
      }
      if c :| Fits(op, lists, c) {
        ChainAlone(lists, op.n, c);
      }
    } else {
      Window.WindowIsSoundAndMaximum(lists, op.n, matches);
      if matches != [] {
        var windows :| Window.WindowFamily(lists, op.n, start, windows) && |windows| == |matches|;
        assert Fits(op, lists, windows[0]);
      }
      if c :| Fits(op, lists, c) {
        WindowAlone(lists, op.n, c);
      }
    }
  }

  lemma ChainAlone(lists: seq<seq<int>>, n: int, c: Sweeps.Tuple)
    requires Near.IsChain(lists, n, c)
    ensures Near.ChainFamily(lists, n, Sweeps.Start(lists), [c])
  {
  }

  lemma WindowAlone(lists: seq<seq<int>>, n: int, c: Sweeps.Tuple)
    requires |lists| > 0 && Window.IsWindow(lists, n, c)
    ensures Window.WindowFamily(lists, n, Sweeps.Start(lists), [c])
  {
  }

  lemma ListsOrdered(terms: seq<string>, field: string, ix: Index, d: int)
    requires ValidIndex(ix)
    ensures Sweeps.Ordered(Lists(terms, field, ix, d))
  {
    forall i | 0 <= i < |terms|
      ensures StrictlyIncreasing(Lists(terms, field, ix, d)[i]) && NonNegative(Lists(terms, field, ix, d)[i])
    {
      PositionsOrdered(Term(terms[i], field), ix, d);
    }
  }

  lemma PhraseMatches(op: Op, terms: seq<string>, field: string, ix: Index, d: int)
    requires IsProximity(op) && ValidIndex(ix) && terms != []
    ensures Matches(ScoredPhrase(op, terms, field), ix, d) <==> exists c :: Fits(op, Lists(terms, field, ix, d), c)
  {
    hide Matches, Positions, Combine, Fits, Lists;
    ListsOrdered(terms, field, ix, d);
    PhrasePositions(op, terms, field, ix, d);
    MatchIffTuple(op, Lists(terms, field, ix, d));
  }

  lemma PhraseWidens(x: Op, y: Op, terms: seq<string>, field: string, ix: Index, d: int)
    requires IsProximity(x) && SameClass(x, y) && ValidIndex(ix) && |terms| > 1 && Reach(y, terms) <= Reach(x, terms)
    ensures Matches(ScoredPhrase(y, terms, field), ix, d) ==> Matches(ScoredPhrase(x, terms, field), ix, d)
  {
    hide Matches, ScoredPhrase, Fits, Reach;
    var lists := Lists(terms, field, ix, d);
    PhraseMatches(x, terms, field, ix, d);
    PhraseMatches(y, terms, field, ix, d);
    if c :| Fits(y, lists, c) {
      TupleWidens(x, y, terms, lists, c);
    }
  }

  lemma TupleWidens(x: Op, y: Op, terms: seq<string>, lists: seq<seq<int>>, c: Sweeps.Tuple)
    requires IsProximity(x) && SameClass(x, y) && |terms| == |lists| > 1 && Reach(y, terms) <= Reach(x, terms)
    requires forall i, j :: 0 <= i < j < |terms| && terms[i] == terms[j] ==> lists[i] == lists[j]
    requires Fits(y, lists, c)
    ensures exists e :: Fits(x, lists, e)
  {
    if x.NEAR? {
      assert 0 < Sweeps.At(lists, c, 1) - Sweeps.At(lists, c, 0) <= y.n;
      assert Fits(x, lists, c);
    } else {
      Window.Bounds(lists, c, 0);
      if AllEqual(terms) {
        var e := seq(|lists|, i => c[0]);
        forall i | 0 <= i < |lists| ensures lists[i] == lists[0] {
          assert terms[i] == terms[0];
        }
        var top, bottom := Window.Attained(lists, e);
        assert Fits(x, lists, e);
      } else {
        assert Fits(x, lists, c);
      }
    }
  }

  // ----- A collection that tells the distances apart

  /** The positions i * m at which term t stands, from the i-th term on. */
  function Multiples(m: nat, terms: seq<string>, t: string, i: nat): seq<int>
    requires i <= |terms|
    decreases |terms| - i
  {
    if i == |terms| then []
    else (if terms[i] == t then [i * m] else []) + Multiples(m, terms, t, i + 1)
  }

  lemma {:induction false} MultiplesOrdered(m: nat, terms: seq<string>, t: string, i: nat)
    requires i <= |terms| && m > 0
    ensures StrictlyIncreasing(Multiples(m, terms, t, i))
    ensures forall y :: y in Multiples(m, terms, t, i) ==> i * m <= y && exists j :: i <= j < |terms| && y == j * m
    ensures forall j :: i <= j < |terms| && terms[j] == t ==> j * m in Multiples(m, terms, t, i)
    decreases |terms| - i
  {
    if i < |terms| {
      MultiplesOrdered(m, terms, t, i + 1);
      assert (i + 1) * m == i * m + m;
      if terms[i] == t {
        PutBefore(i * m, Multiples(m, terms, t, i + 1));
      }
    }
  }

  /** Where a term stands: for NEAR the terms follow each other n apart, for WINDOW all but the first end its window. */
  function Placed(op: Op, terms: seq<string>, t: string): seq<int>
    requires IsProximity(op) && op.n > 0 && terms != []
  {
    if op.NEAR? then Multiples(op.n, terms, t, 0) else [if t == terms[0] then 0 else op.n - 1]
  }

  /** One document that holds the terms as far apart as the operator allows. */
  function Spread(op: Op, terms: seq<string>, field: string): Index
    requires IsProximity(op) && op.n > 0 && terms != []
  {
    Index(1, map t | t in terms :: (field, t) := [Posting(0, Placed(op, terms, t))],
          (f, d) => |terms| * op.n, f => |terms| * op.n, f => 1, d => "doc", x => x)
  }

  lemma PlacedWellFormed(op: Op, terms: seq<string>, t: string)
    requires IsProximity(op) && op.n > 0 && t in terms
    ensures WellFormedPosting(Posting(0, Placed(op, terms, t)), 1)
  {
    var ps := Placed(op, terms, t);
    if op.NEAR? {
      MultiplesOrdered(op.n, terms, t, 0);
      var j :| 0 <= j < |terms| && terms[j] == t;
      assert j * op.n in ps;
      forall k | 0 <= k < |ps| ensures 0 <= ps[k] {
        assert ps[k] in ps;
      }
    }
  }

  lemma SpreadValid(op: Op, terms: seq<string>, field: string)
    requires IsProximity(op) && op.n > 0 && terms != []
    ensures ValidIndex(Spread(op, terms, field))
    ensures var lists := Lists(terms, field, Spread(op, terms, field), 0);
            forall i :: 0 <= i < |terms| ==> lists[i] == Placed(op, terms, terms[i])
  {
    var ix := Spread(op, terms, field);
    forall t | t in terms ensures WellFormedPosting(Posting(0, Placed(op, terms, t)), 1) {
      PlacedWellFormed(op, terms, t);
    }
    hide Placed, WellFormedPosting;
    forall i | 0 <= i < |terms| ensures TermList(ix, terms[i], field) == [Posting(0, Placed(op, terms, terms[i]))] {
    }
  }

  lemma OneTermPresent(op: Op, terms: seq<string>, field: string)
    requires |terms| == 1
    ensures ValidIndex(Spread(NEAR(1), terms, field))
    ensures Matches(Left(op, terms, field), Spread(NEAR(1), terms, field), 0)
  {
    SpreadValid(NEAR(1), terms, field);
    hide Spread;
    assert Lists(terms, field, Spread(NEAR(1), terms, field), 0)[0] == Multiples(1, terms, terms[0], 0);
  }

  function IndexOf(s: seq<int>, y: int): (i: nat)
    requires y in s
    ensures i < |s| && s[i] == y
  {
    if s[0] == y then 0 else IndexOf(s[1..], y) + 1
  }

  /** The terms fit the second operator there, and the first one only if it reaches as far. */
  lemma SpreadMatches(x: Op, y: Op, terms: seq<string>, field: string)
    requires IsProximity(x) && SameClass(x, y) && |terms| > 1 && Reach(x, terms) < Reach(y, terms)
    ensures ValidIndex(Spread(y, terms, field))
    ensures Matches(ScoredPhrase(y, terms, field), Spread(y, terms, field), 0)
    ensures !Matches(ScoredPhrase(x, terms, field), Spread(y, terms, field), 0)
  {
    hide Matches, ScoredPhrase, Near.IsChain, Window.IsWindow, Fits;
    var ix := Spread(y, terms, field);
    SpreadValid(y, terms, field);
    hide Spread;
    var lists := Lists(terms, field, ix, 0);
    PhraseMatches(x, terms, field, ix, 0);
    PhraseMatches(y, terms, field, ix, 0);
    if c :| Fits(x, lists, c) {
      SpreadTooFar(x, y, terms, lists, c);
    }
    SpreadFits(y, terms, lists);
  }

  lemma SpreadTooFar(x: Op, y: Op, terms: seq<string>, lists: seq<seq<int>>, c: Sweeps.Tuple)
    requires IsProximity(x) && SameClass(x, y) && y.n > 0 && |terms| == |lists| > 1
    requires forall i :: 0 <= i < |terms| ==> lists[i] == Placed(y, terms, terms[i])
    requires Fits(x, lists, c)
    ensures Reach(y, terms) <= Reach(x, terms)
  {
    if x.NEAR? {
      ChainTooShort(x.n, y.n, terms, lists, c);
    } else {
      Window.Bounds(lists, c, 0);
      if !AllEqual(terms) {
        var i :| 0 <= i < |terms| && terms[i] != terms[0];
        Window.Bounds(lists, c, i);
        assert lists[0] == [0] && lists[i] == [y.n - 1];
        assert Sweeps.At(lists, c, 0) == 0 && Sweeps.At(lists, c, i) == y.n - 1;
      }
    }
  }

  lemma ChainTooShort(n: int, m: nat, terms: seq<string>, lists: seq<seq<int>>, c: Sweeps.Tuple)
    requires m > 0 && |terms| > 1 && |lists| == |terms|
    requires forall i :: 0 <= i < |terms| ==> lists[i] == Multiples(m, terms, terms[i], 0)
    requires Near.IsChain(lists, n, c)
    ensures m <= n
  {
    var x, y := Sweeps.At(lists, c, 0), Sweeps.At(lists, c, 1);
    assert 0 < y - x <= n;
    MultiplesOrdered(m, terms, terms[0], 0);
    MultiplesOrdered(m, terms, terms[1], 0);
    assert x in lists[0] && y in lists[1];
    var i :| 0 <= i < |terms| && x == i * m;
    var j :| 0 <= j < |terms| && y == j * m;
    MultiplesApart(i, j, m);
  }

  lemma MultiplesApart(i: nat, j: nat, m: nat)
    requires i * m < j * m
    ensures m <= j * m - i * m
  {
    assert i < j;
    assert (i + 1) * m <= j * m;
  }

  lemma SpreadFits(op: Op, terms: seq<string>, lists: seq<seq<int>>)
    requires IsProximity(op) && op.n > 0 && |lists| == |terms| > 0
    requires forall i :: 0 <= i < |terms| ==> lists[i] == Placed(op, terms, terms[i])
    ensures exists c :: Fits(op, lists, c)
  {
    if op.NEAR? {
      SpreadChain(op.n, terms, lists);
      var c :| Near.IsChain(lists, op.n, c);
      assert Fits(op, lists, c);
    } else {
      var c := Sweeps.Start(lists);
      var top, bottom := Window.Attained(lists, c);
      assert Fits(op, lists, c);
    }
  }

  lemma SpreadChain(m: nat, terms: seq<string>, lists: seq<seq<int>>)
    requires m > 0 && |lists| == |terms|
    requires forall i :: 0 <= i < |terms| ==> lists[i] == Multiples(m, terms, terms[i], 0)
    ensures exists c :: Near.IsChain(lists, m, c)
  {
    forall i | 0 <= i < |terms| ensures i * m in lists[i] {
      MultiplesOrdered(m, terms, terms[i], 0);
    }
    hide Multiples;
    var c := seq(|terms|, i requires 0 <= i < |terms| => IndexOf(lists[i], i * m));
    assert forall i :: 0 <= i < |terms| ==> Sweeps.At(lists, c, i) == i * m;
    forall i | 1 <= i < |lists| ensures 0 < Sweeps.At(lists, c, i) - Sweeps.At(lists, c, i - 1) <= m {
      assert i * m == (i - 1) * m + m;
    }
    assert Near.IsChain(lists, m, c);
  }
}
