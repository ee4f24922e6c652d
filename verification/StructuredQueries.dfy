/** Searches for structured queries: the parsed query is searched as it was written, below the default operator. */
module StructuredQueries {
  import opened Wrappers
  import opened QueryTree
  import opened Semantics
  import opened Text
  import opened QryParser
  import opened Optimizer
  import opened OptimizerLaws
  import opened OptimizerPruning
  import OptimizerMeaning
  import LeafScores
  import opened Ranker
  import opened Search

  // ----- One query inside the brackets of another

  /** Text that closes its own brackets with its last character does so one level deeper, too. */
  lemma {:induction false} ScanDeeper(s: string, rest: string, depth: nat)
    requires s != "" && Scan(s, depth) == Ok(|s| - 1)
    ensures Scan(s + rest, depth + 1) == Shift(Scan(rest, 1), |s|)
  {
    var t := s[1..];
    assert (s + rest)[0] == s[0] && (s + rest)[1..] == t + rest;
    if s[0] == '(' {
      ScanDeeper(t, rest, depth + 1);
    } else if s[0] != ')' {
      ScanDeeper(t, rest, depth);
    } else if depth == 1 {
      assert t + rest == rest;
    } else {
      ScanDeeper(t, rest, depth - 1);
    }
  }

  lemma WrappedBrackets(name: string, value: string)
    requires '(' !in name && ')' !in name && WellBracketed(value)
    ensures WellBracketed(name + ("(" + (value + ")")))
  {
    var tail := "(" + (value + ")");
    BracketsDelimit(value);
    WrappedCount(name, value, '(');
    WrappedCount(name, value, ')');
    ScanDeeper(value, ")", 0);
    assert tail[0] == '(' && tail[1..] == value + ")";
    assert Scan(")", 1) == Ok(0);
    ScanPlain(name, tail, 0);
  }

  lemma WrappedCount(name: string, value: string, c: char)
    requires c !in name && (c == '(' || c == ')')
    ensures Count(name + ("(" + (value + ")")), c) == Count(value, c) + 1
  {
    CountAppend(name, "(" + (value + ")"), c);
    CountAppend("(", value + ")", c);
    CountAppend(value, ")", c);
    CountNone(name, c);
    assert "("[1..] == "" && ")"[1..] == "";
  }

  lemma SplitWrapped(name: string, value: string)
    requires Trimmed(name) && '(' !in name && ')' !in name && Trimmed(value) && WellBracketed(value)
    ensures SplitQuery(name + ("(" + (value + ")"))) == Some((name, value))
  {
    hide WellBracketed, Strip;
    var s := name + ("(" + (value + ")"));
    WrappedBrackets(name, value);
    StripTrimmed(s);
    StripTrimmed(name);
    StripTrimmed(value);
    assert s[|name|] == '(' && s[..|name|] == name;
    FirstIndexIs(s, '(', |name|);
    var rest := value + ")";
    assert s[|name| + 1..] == rest && rest[..|value|] == value && rest[|value| + 1..] == "";
    LastIndexIs(rest, ')', |value|);
  }

  /** The query as an argument of the default operator. */
  function Wrapped(q: Qry): Qry {
    if q.IsIop() then Scored(q) else q
  }

  lemma PopWhole(tree: Qry, value: string, lx: Lexicon)
    requires tree.Node? && (tree.op.SUM? || tree.op.AND?)
    requires value != "" && value[0] == '#' && WellBracketed(value) && Parse(value, lx).Ok?
    ensures PopArg(tree, value, lx) == Ok(Popped([Parse(value, lx).value], 1.0, ""))
  {
    hide Parse, WellBracketed, PopSubquery, PopTerm, Strip, CreateTerms;
    PopWholeSubquery(value);
    StripBlank("");
  }

  lemma PopWholeSubquery(value: string)
    requires value != "" && WellBracketed(value)
    ensures PopSubquery(value) == Ok((value, ""))
  {
    hide Scan, Count;
    assert value[..|value|] == value && value[|value|..] == "";
  }

  lemma AppendWhole(tree: Qry, q: Qry)
    requires tree.Node? && (tree.op.SUM? || tree.op.AND?)
    ensures AppendAll(tree, [q], 1.0) == Ok(tree.(args := tree.args + [Wrapped(q)]))
  {
    assert [q][1..] == [];
  }

  lemma ParseWhole(tree: Qry, value: string, q: Qry, lx: Lexicon)
    requires tree.Node? && (tree.op.SUM? || tree.op.AND?)
    requires value != "" && PopArg(tree, value, lx) == Ok(Popped([q], 1.0, ""))
    ensures ParseArgs(tree, value, lx) == Ok(tree.(args := tree.args + [Wrapped(q)]))
  {
    hide PopArg, AppendAll;
    AppendWhole(tree, q);
  }

  /** The text is a structured query that means q. */
  predicate Structured(query: string, q: Qry, lx: Lexicon) {
    Strip(query) != "" && Strip(query)[0] == '#' && Parse(Strip(query), lx) == Ok(q)
  }

  /** The search parses a structured query to the default operator over just this query. */
  lemma StructuredIsKept(query: string, q: Qry, m: Model, lx: Lexicon)
    requires Structured(query, q, lx)
    ensures Parse(Prepared(query, m, lx), lx)
            == Ok(Node(if m.BM25? then SUM else AND, DefaultOperator(m), [Wrapped(q)], []))
  {
    hide Parse, ParseArgs, PopArg, SplitQuery, WellBracketed, Strip;
    var value, name := Strip(query), DefaultOperator(m);
    StripTrims(query);
    BracketedWhereParsed(value, lx);
    SplitWrapped(name, value);
    DefaultNode(m);
    var tree := CreateOperator(name).value;
    PopWhole(tree, value, lx);
    ParseWhole(tree, value, q, lx);
    ParseUnfolds(name + ("(" + (value + ")")), name, value, lx);
    assert tree.args + [Wrapped(q)] == [Wrapped(q)];
  }

  lemma BracketedWhereParsed(value: string, lx: Lexicon)
    requires Trimmed(value) && Parse(value, lx).Ok?
    ensures WellBracketed(value)
  {
    StripTrimmed(value);
    hide WellBracketed, ParseArgs;
  }

  lemma DefaultNode(m: Model)
    ensures Trimmed(DefaultOperator(m)) && '(' !in DefaultOperator(m) && ')' !in DefaultOperator(m)
    ensures CreateOperator(DefaultOperator(m))
            == Ok(Node(if m.BM25? then SUM else AND, DefaultOperator(m), [], []))
  {
    DefaultOperators();
    assert ToUpper("#SUM") == "#SUM" && ToUpper("#AND") == "#AND";
    hide OpOf, ToUpper;
  }

  lemma ParseUnfolds(s: string, name: string, body: string, lx: Lexicon)
    requires SplitQuery(s) == Some((name, body)) && CreateOperator(name).Ok?
    ensures Parse(s, lx) == ParseArgs(CreateOperator(name).value, body, lx)
  {
    hide SplitQuery, ParseArgs, CreateOperator;
  }

  // ----- What is searched

  /** An operator over a single argument, whatever its name, is optimized to what the argument is optimized to. */
  lemma SingleVanishes(op: Op, name: string, a: Qry)
    requires !op.SCORE?
    ensures Optimize(Node(op, name, [a], [])) == Optimize(a)
  {
    hide Optimize, Weights, Normal;
    var q := Node(op, name, [a], []);
    OneOptimized(a);
    if Optimize(a).Some? {
      OptimizeIsNormal(a);
      OptimizeNode(q);
      ZeroWeightMeansDuplicate([Optimize(a).value]);
    } else {
      NothingOptimized(q);
    }
  }

  lemma OneOptimized(a: Qry)
    ensures OptimizedArgs([a]) == if Optimize(a).Some? then [Optimize(a).value] else []
  {
    hide Optimize;
    assert [a][1..] == [];
  }

  lemma NothingOptimized(q: Qry)
    requires q.Node? && OptimizedArgs(q.args) == []
    ensures Optimize(q) == None
  {
    hide OptimizedArgs;
  }

  /**
   The search for a structured query answers what the query means after optimization, and raises an exception
   where nothing is left of it: the default operator cannot be observed.
   */
  lemma StructuredSearch(query: string, q: Qry, ix: Index, m: Model, lx: Lexicon, n: nat, r: Result<seq<Entry>>)
    requires Structured(query, q, lx)
    ensures SearchAnswers(query, ix, m, lx, n, r) <==>
            match Optimize(Wrapped(q))
            case None => r.Raised?
            case Some(o) => Answers(o, ix, m, n, r)
  {
    StructuredIsKept(query, q, m, lx);
    hide Parse, Prepared, Answers, Optimize, Structured;
    SingleVanishes(if m.BM25? then SUM else AND, DefaultOperator(m), Wrapped(q));
  }

  /**
   So what is returned is the ranking of the query as it was written, without its empty subtrees, provided the
   optimizer keeps its scores, the model supports it, and parameters and lengths are in range.
   */
  lemma StructuredSearchRanks(query: string, q: Qry, p: Qry, ix: Index, m: Model, lx: Lexicon, n: nat,
      r: Result<seq<Entry>>)
    requires Structured(query, q, lx) && SearchAnswers(query, ix, m, lx, n, r)
    requires ValidIndex(ix) && LeafScores.ParametersInRange(m) && LeafScores.LengthsInRange(ix)
    requires Prune(Wrapped(q)) == Some(p) && Intact(Wrapped(q))
    requires OptimizerMeaning.Supported(p, m) && OptimizerMeaning.Sound(p)
    ensures r.Ok? && Answers(p, ix, m, n, r)
  {
    hide Parse, Prune, Optimize, Answers, Intact, SearchAnswers;
    hide OptimizerMeaning.Supported, OptimizerMeaning.Sound, LeafScores.LengthsInRange;
    StructuredSearch(query, q, ix, m, lx, n, r);
    ParseIsWellTyped(Strip(query), lx);
    WrappedTyped(q);
    PrunedQueryIsRanked(Wrapped(q), p, ix, m, n, r);
  }

  lemma WrappedTyped(q: Qry)
    requires WellTyped(q)
    ensures WellTyped(Wrapped(q)) && !Wrapped(q).IsIop()
  {
  }
}
