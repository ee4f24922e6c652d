/** A search from the query text to the ranking: preparing, parsing, optimizing, evaluating. */
module Search {
  import opened Wrappers
  import opened QueryTree
  import opened Semantics
  import opened Text
  import opened QryParser
  import opened Optimizer
  import opened OptimizerLaws
  import opened OptimizerPruning
  import opened OptimizerMeaning
  import opened LeafScores
  import FirstMatches
  import SumConversion
  import Printing
  import opened Ranker

  /** The operator a retrieval model puts around every query. */
  function DefaultOperator(m: Model): string {
    if m.BM25? then "#SUM" else "#AND"
  }

  /** _prepare_bow_query: text that is not a structured query is tokenized first. */
  function Prepared(query: string, m: Model, lx: Lexicon): string {
    var value := Strip(query);
    var text := if value != [] && value[0] == '#' then value else Printing.Join(lx.tokenize(value));
    DefaultOperator(m) + ("(" + (text + ")"))
  }

  // ----- The root of a parsed query

  lemma SplitPrepared(name: string, text: string)
    requires Trimmed(name) && '(' !in name
    ensures var s := name + ("(" + (text + ")"));
            SplitQuery(s).Some? ==> SplitQuery(s).value.0 == name
  {
    hide WellBracketed, Strip;
    var s := name + ("(" + (text + ")"));
    StripTrimmed(s);
    StripTrimmed(name);
    assert s[|name|] == '(' && s[..|name|] == name;
    FirstIndexIs(s, '(', |name|);
  }

  /** Whatever the user types, the tree of the prepared query is well-typed and has the default operator at its root. */
  lemma PreparedRoot(query: string, m: Model, lx: Lexicon)
    requires Parse(Prepared(query, m, lx), lx).Ok?
    ensures var q := Parse(Prepared(query, m, lx), lx).value;
            WellTyped(q) && q.Node? && q.op == (if m.BM25? then SUM else AND)
  {
    hide SplitQuery, ParseArgs, WellTyped, Strip, Printing.Join;
    var s := Prepared(query, m, lx);
    var value := Strip(query);
    var text := if value != [] && value[0] == '#' then value else Printing.Join(lx.tokenize(value));
    ParseIsWellTyped(s, lx);
    SplitPrepared(DefaultOperator(m), text);
    DefaultOperators();
    var (name, body) := SplitQuery(s).value;
    ParseArgsKeepsOp(CreateOperator(name).value, body, lx);
  }

  lemma DefaultOperators()
    ensures OpOf("#SUM") == Some(SUM) && OpOf("#AND") == Some(AND)
  {
    assert ToLower("#SUM") == "#sum" && ToLower("#AND") == "#and";
  }

  /** Optimizing keeps a well-typed score query one the engine can run. */
  lemma OptimizedIsEvaluable(q: Qry)
    requires WellTyped(q) && !q.IsIop() && Optimize(q).Some?
    ensures FirstMatches.Evaluable(Optimize(q).value) && !Optimize(q).value.IsIop()
  {
    OptimizeTyped(q);
    OptimizeIsNormal(q);
    NormalHasArguments(Optimize(q).value);
  }

  lemma {:induction false} NormalHasArguments(q: Qry)
    requires Normal(q)
    ensures NoEmptyNode(q)
  {
    if q.Node? {
      forall i | 0 <= i < |q.Args()| ensures NoEmptyNode(q.Args()[i]) {
        NormalHasArguments(q.args[i]);
      }
    }
  }

  // ----- The search

  /** What a search answers: an exception, or the ranking of the optimized query. */
  ghost predicate SearchAnswers(query: string, ix: Index, m: Model, lx: Lexicon, n: nat, r: Result<seq<Entry>>) {
    match Parse(Prepared(query, m, lx), lx)
    case Raised(_) => r.Raised?
    case Ok(q) =>
      match Optimize(q)
      case None => r.Raised?
      case Some(o) => Answers(o, ix, m, n, r)
  }

  /** get_rankings_bow for one query: the parser's and the optimizer's output always meets what the engine needs. */
  method SearchBow(query: string, ix: Index, m: Model, lx: Lexicon, n: nat) returns (r: Result<seq<Entry>>)
    requires ValidIndex(ix)
    ensures SearchAnswers(query, ix, m, lx, n, r)
  {
    hide Answers, Optimize, Parse, FirstMatches.Evaluable, WellTyped, Prepared;
    var parsed := ParseString(Prepared(query, m, lx), lx);
    if parsed.Raised? {
      return Raised(parsed.reason);
    }
    PreparedRoot(query, m, lx);
    var optimized := OptimizeQuery(parsed.value);
    if optimized.Some? {
      OptimizedIsEvaluable(parsed.value);
    }
    r := GetRanking(optimized, ix, m, n);
  }

  // ----- The ranking of the query as it was written

  lemma SameEntries(q: Qry, r: Qry, ix: Index, m: Model, docs: seq<int>)
    requires forall i :: 0 <= i < |docs| ==>
             Score(q, ix, m, docs[i]).Some? && Score(r, ix, m, docs[i]) == Score(q, ix, m, docs[i])
    ensures Entries(r, ix, m, docs) == Entries(q, ix, m, docs)
  {
    hide Score;
  }

  /**
   On sound queries without empty operators the search returns exactly the ranking the query means as it
   was parsed: optimization cannot be observed.
   */
  lemma OptimizationIsInvisible(q: Qry, ix: Index, m: Model, n: nat, r: Result<seq<Entry>>)
    requires ValidIndex(ix) && WellTyped(q) && !q.IsIop() && NoEmptyNode(q) && Supported(q, m) && Sound(q)
    requires AllScored(q, ix, m)
    ensures Optimize(q).Some? && (Answers(Optimize(q).value, ix, m, n, r) ==> Answers(q, ix, m, n, r))
  {
    OptimizeAgrees(q, ix, m);
    hide Optimize, Agree, Answers, AllScored, Supported, Sound, WellTyped, NoEmptyNode;
    if Answers(Optimize(q).value, ix, m, n, r) {
      AgreeingAnswers(q, Optimize(q).value, ix, m, n, r);
    }
  }

  /** Queries that agree have the same rankings. */
  lemma AgreeingAnswers(q: Qry, o: Qry, ix: Index, m: Model, n: nat, r: Result<seq<Entry>>)
    requires !q.IsIop() && Agree(q, o, ix, m) && AllScored(q, ix, m) && Answers(o, ix, m, n, r)
    ensures Answers(q, ix, m, n, r)
  {
    hide Matches, Score, Sort, Top;
    assert AllScored(o, ix, m);
    var docs :| Visited(o, ix, docs, ix.numDocs)
      && (forall i :: 0 <= i < |docs| ==> Score(o, ix, m, docs[i]).Some?)
      && r.value == Top(Sort(Entries(o, ix, m, docs)), n);
    forall i | 0 <= i < |docs|
      ensures Score(q, ix, m, docs[i]).Some? && Score(o, ix, m, docs[i]) == Score(q, ix, m, docs[i])
    {
      assert docs[i] in docs && Matches(q, ix, docs[i]);
    }
    SameEntries(q, o, ix, m, docs);
    assert Visited(q, ix, docs, ix.numDocs);
  }

  /**
   Empty subtrees, as stopwords leave them, count as absent: unless a WSUM that is kept lost an argument, the
   search ranks what the pruned query means.
   */
  lemma EmptySubtreesAreIgnored(q: Qry, p: Qry, ix: Index, m: Model, n: nat, r: Result<seq<Entry>>)
    requires ValidIndex(ix) && WellTyped(q) && !q.IsIop() && Prune(q) == Some(p) && Intact(q)
    requires Supported(p, m) && Sound(p) && AllScored(p, ix, m)
    ensures Optimize(q).Some? && (Answers(Optimize(q).value, ix, m, n, r) ==> Answers(p, ix, m, n, r))
  {
    PruneTyped(q);
    PruneKeepsTerms(q);
    TypedHasWeights(q);
    hide Optimize, Prune, Answers;
    PruneExactly(q);
    OptimizationIsInvisible(p, ix, m, n, r);
  }

  // ----- When every match has a score

  lemma {:induction false} AccumulatedHasScore(q: Qry, ix: Index, m: Model, d: int, k: nat)
    requires ParametersInRange(m) && LengthsInRange(ix) && q.Node? && !q.IsIop() && !q.op.SCORE?
    requires WellTyped(q) && Supported(q, m) && k <= |q.args|
    ensures Accumulated(q, ix, m, d, k).Some?
    decreases q, 0, k
  {
    hide Matches, LengthsInRange, ParametersInRange;
    if k > 0 {
      AccumulatedHasScore(q, ix, m, d, k - 1);
      if Matches(q.args[k - 1], ix, d) {
        assert WellTyped(q.Args()[k - 1]);
        HasScoreInRange(q.args[k - 1], ix, m, d);
      }
    }
  }

  lemma {:induction false} HasScoreInRange(q: Qry, ix: Index, m: Model, d: int)
    requires ParametersInRange(m) && LengthsInRange(ix) && WellTyped(q) && !q.IsIop() && Supported(q, m)
    requires Matches(q, ix, d)
    ensures Score(q, ix, m, d).Some?
    decreases q, 1, 0
  {
    hide LengthsInRange, ParametersInRange;
    if q.op.SCORE? {
      assert Matches(q.args[0], ix, d) && q.args[0].IsIop();
      LeafHasScore(q.args[0], ix, m, d);
    } else {
      AccumulatedHasScore(q, ix, m, d, |q.args|);
    }
  }

  /** With operators the model supports, and with parameters and lengths in range, every match has a score. */
  lemma AllScoredInRange(q: Qry, ix: Index, m: Model)
    requires ParametersInRange(m) && LengthsInRange(ix) && WellTyped(q) && !q.IsIop() && Supported(q, m)
    ensures AllScored(q, ix, m)
  {
    forall d | Matches(q, ix, d) ensures Score(q, ix, m, d).Some? {
      HasScoreInRange(q, ix, m, d);
    }
  }

  /** So under what a caller can check, the search returns the ranking of the pruned query. */
  lemma PrunedQueryIsRanked(q: Qry, p: Qry, ix: Index, m: Model, n: nat, r: Result<seq<Entry>>)
    requires ValidIndex(ix) && ParametersInRange(m) && LengthsInRange(ix)
    requires WellTyped(q) && !q.IsIop() && Prune(q) == Some(p) && Intact(q) && Supported(p, m) && Sound(p)
    ensures Optimize(q).Some? && (Answers(Optimize(q).value, ix, m, n, r) ==> Answers(p, ix, m, n, r) && r.Ok?)
  {
    hide Optimize, Prune, Answers, Sound, Supported, Intact, LengthsInRange;
    PruneTyped(q);
    AllScoredInRange(p, ix, m);
    EmptySubtreesAreIgnored(q, p, ix, m, n, r);
    if Answers(Optimize(q).value, ix, m, n, r) {
      ScoredAnswersAreOk(p, ix, m, n, r);
    }
  }

  lemma ScoredAnswersAreOk(q: Qry, ix: Index, m: Model, n: nat, r: Result<seq<Entry>>)
    requires AllScored(q, ix, m) && Answers(q, ix, m, n, r)
    ensures r.Ok?
  {
  }

  // ----- Bags of words

  /** The entries with every score divided by c. */
  function Scaled(s: seq<Entry>, c: nat): (r: seq<Entry>)
    requires c > 0
    ensures |r| == |s|
  {
    seq(|s|, i requires 0 <= i < |s| => Entry(s[i].score / c as real, s[i].externalId))
  }

  lemma {:induction false} InsertScaled(e: Entry, s: seq<Entry>, c: nat)
    requires c > 0
    ensures Scaled(Insert(e, s), c) == Insert(Entry(e.score / c as real, e.externalId), Scaled(s, c))
  {
    var e' := Entry(e.score / c as real, e.externalId);
    if s == [] {
      assert Scaled([e], c) == [e'];
    } else {
      SumConversion.DivisionKeepsOrder(e.score, s[0].score, c);
      SumConversion.DivisionKeepsOrder(s[0].score, e.score, c);
      assert Scaled(s, c)[0] == Entry(s[0].score / c as real, s[0].externalId);
      if NotAfter(e, s[0]) {
        assert Scaled([e] + s, c) == [e'] + Scaled(s, c);
      } else {
        InsertScaled(e, s[1..], c);
        assert Scaled(s, c)[1..] == Scaled(s[1..], c);
        assert Scaled([s[0]] + Insert(e, s[1..]), c) == [Scaled(s, c)[0]] + Scaled(Insert(e, s[1..]), c);
      }
    }
  }

  lemma {:induction false} SortScaled(s: seq<Entry>, c: nat)
    requires c > 0
    ensures Sort(Scaled(s, c)) == Scaled(Sort(s), c)
  {
    if s == [] {
      assert Scaled(s, c) == [];
    } else {
      SortScaled(s[1..], c);
      assert Scaled(s, c)[1..] == Scaled(s[1..], c);
      InsertScaled(s[0], Sort(s[1..]), c);
    }
  }

  /** A bag of words keeps its whole ranking: the same documents in the same order, every score over one constant. */
  lemma BagKeepsRanking(q: Qry, ix: Index, m: Model, n: nat, written: seq<Entry>)
    requires ValidIndex(ix) && SumConversion.BagOfWords(q) && m.BM25?
    requires Answers(q, ix, m, n, Ok(written))
    ensures Optimize(q).Some?
    ensures Answers(Optimize(q).value, ix, m, n, Ok(Scaled(written, SumConversion.Divisor(q))))
  {
    hide Optimize, Matches, Score, Sort, SumConversion.BagOfWords, SumConversion.Divisor;
    var c := SumConversion.Divisor(q);
    SumConversion.BagScaled(q, ix, m, 0);
    var o := Optimize(q).value;
    forall d ensures Matches(o, ix, d) == Matches(q, ix, d)
      ensures Matches(q, ix, d) && Score(q, ix, m, d).Some? ==>
              Score(o, ix, m, d) == Some(Score(q, ix, m, d).value / c as real)
    {
      SumConversion.BagScaled(q, ix, m, d);
    }
    var docs :| Visited(q, ix, docs, ix.numDocs)
      && (forall i :: 0 <= i < |docs| ==> Score(q, ix, m, docs[i]).Some?)
      && written == Top(Sort(Entries(q, ix, m, docs)), n);
    forall i | 0 <= i < |docs| ensures Score(o, ix, m, docs[i]) == Some(Score(q, ix, m, docs[i]).value / c as real) {
      assert docs[i] in docs && Matches(q, ix, docs[i]);
    }
    var es := Entries(q, ix, m, docs);
    assert Entries(o, ix, m, docs) == Scaled(es, c);
    SortScaled(es, c);
    assert Visited(o, ix, docs, ix.numDocs) && AllScored(o, ix, m);
    assert Top(Scaled(Sort(es), c), n) == Scaled(Top(Sort(es), n), c);
  }
}
