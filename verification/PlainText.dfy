/** Searches for plain text: what they parse to, and what they rank. */
module PlainText {
  import opened Wrappers
  import opened QueryTree
  import opened Semantics
  import opened Text
  import opened QryParser
  import opened Optimizer
  import SumConversion
  import Printing
  import RoundTrip
  import opened Ranker
  import opened Search

  /** The terms, each below a SCORE operator. */
  function ScoredAll(terms: seq<Qry>): (r: seq<Qry>)
    ensures |r| == |terms| && forall i :: 0 <= i < |r| ==> r[i] == Scored(terms[i])
  {
    seq(|terms|, i requires 0 <= i < |terms| => Scored(terms[i]))
  }

  /** What the words mean, in their order: each is split into terms again, and its terms are scored. */
  function WordArgs(words: seq<string>, lx: Lexicon): seq<Qry> {
    if words == [] then [] else ScoredAll(CreateTerms(words[0], lx)) + WordArgs(words[1..], lx)
  }

  /** Words without white space and brackets that do not look like operators. */
  predicate CleanWords(words: seq<string>) {
    forall i :: 0 <= i < |words| ==> IsWord(words[i]) && Printing.NoBrackets(words[i]) && words[i][0] != '#'
  }

  lemma {:induction false} JoinedWords(words: seq<string>)
    requires CleanWords(words)
    ensures var t := Printing.Join(words); Printing.NoBrackets(t) && (words == [] ==> t == "")
    ensures words != [] ==>
              var t := Printing.Join(words);
              && Trimmed(t) && t[0] == words[0][0]
              && PopTerm(t) == Some((words[0], Printing.Join(words[1..])))
  {
    if |words| == 1 {
      PopLastWord(words[0]);
    } else if |words| > 1 {
      JoinedWords(words[1..]);
      PopFirstWord(words[0], Printing.Join(words[1..]));
      JoinSpaced(words[0], Printing.Join(words[1..]));
    }
  }

  lemma JoinSpaced(w: string, t: string)
    requires IsWord(w) && Trimmed(t) && Printing.NoBrackets(w) && Printing.NoBrackets(t)
    ensures Trimmed(w + " " + t) && Printing.NoBrackets(w + " " + t) && (w + " " + t)[0] == w[0]
  {
  }

  lemma AppendTerm(tree: Qry, t: Qry, weight: real)
    requires tree.Node? && (tree.op.SUM? || tree.op.AND?) && t.Term?
    ensures AppendArg(tree, t, weight) == Ok(tree.(args := tree.args + [Scored(t)]))
  {
  }

  lemma ScoredFirst(before: seq<Qry>, terms: seq<Qry>)
    ensures before + ScoredAll([]) == before
    ensures terms != [] ==> before + [Scored(terms[0])] + ScoredAll(terms[1..]) == before + ScoredAll(terms)
  {
    hide Scored;
  }

  lemma AppendAllFirst(tree: Qry, args: seq<Qry>, weight: real)
    requires tree.Node?
    ensures AppendAll(tree, [], weight) == Ok(tree)
    ensures args != [] && AppendArg(tree, args[0], weight).Ok? ==>
              AppendAll(tree, args, weight) == AppendAll(AppendArg(tree, args[0], weight).value, args[1..], weight)
  {
  }

  /** Terms that join a score operator become scored terms, behind the arguments it has. */
  lemma {:induction false} AppendTerms(tree: Qry, terms: seq<Qry>, weight: real)
    requires tree.Node? && (tree.op.SUM? || tree.op.AND?)
    requires forall i :: 0 <= i < |terms| ==> terms[i].Term?
    ensures AppendAll(tree, terms, weight) == Ok(tree.(args := tree.args + ScoredAll(terms)))
    decreases |terms|
  {
    hide AppendAll, AppendArg, ScoredAll, Scored;
    AppendAllFirst(tree, terms, weight);
    ScoredFirst(tree.args, terms);
    if terms != [] {
      AppendTerm(tree, terms[0], weight);
      AppendTerms(tree.(args := tree.args + [Scored(terms[0])]), terms[1..], weight);
    }
  }

  lemma PopWordArg(tree: Qry, words: seq<string>, lx: Lexicon)
    requires tree.Node? && !tree.op.WSUM? && words != [] && CleanWords(words)
    ensures var t := Printing.Join(words);
            t != "" && PopArg(tree, t, lx) == Ok(Popped(CreateTerms(words[0], lx), 1.0, Printing.Join(words[1..])))
  {
    hide CreateTerms, PopTerm, Strip, Printing.Join;
    JoinedWords(words);
    JoinedWords(words[1..]);
    var rest := Printing.Join(words[1..]);
    if words[1..] == [] {
      StripBlank("");
    } else {
      StripTrimmed(rest);
    }
  }

  lemma {:induction false} ParseWords(tree: Qry, words: seq<string>, lx: Lexicon)
    requires tree.Node? && (tree.op.SUM? || tree.op.AND?) && CleanWords(words)
    ensures ParseArgs(tree, Printing.Join(words), lx) == Ok(tree.(args := tree.args + WordArgs(words, lx)))
    decreases |words|
  {
    hide PopArg, AppendAll, ScoredAll, Printing.Join, ParseArgs, CreateTerms, PopTerm;
    JoinedWords(words);
    if words == [] {
      ParseNothing(tree, lx);
      assert tree.args + [] == tree.args;
    } else {
      PopWordArg(tree, words, lx);
      CreatedAreTerms(words[0], lx);
      var scored := ScoredAll(CreateTerms(words[0], lx));
      AppendTerms(tree, CreateTerms(words[0], lx), 1.0);
      ParseStep(tree, Printing.Join(words), lx);
      ParseWords(tree.(args := tree.args + scored), words[1..], lx);
      assert tree.args + scored + WordArgs(words[1..], lx) == tree.args + (scored + WordArgs(words[1..], lx));
    }
  }

  lemma CreatedAreTerms(token: string, lx: Lexicon)
    ensures forall i :: 0 <= i < |CreateTerms(token, lx)| ==> CreateTerms(token, lx)[i].Term?
  {
  }

  lemma ParseStep(tree: Qry, s: string, lx: Lexicon)
    requires tree.Node? && s != "" && PopArg(tree, s, lx).Ok?
    ensures var p := PopArg(tree, s, lx).value;
            AppendAll(tree, p.args, p.weight).Ok? ==>
              ParseArgs(tree, s, lx) == ParseArgs(AppendAll(tree, p.args, p.weight).value, p.rest, lx)
  {
    hide PopArg, AppendAll;
  }

  lemma ParseNothing(tree: Qry, lx: Lexicon)
    requires tree.Node?
    ensures ParseArgs(tree, "", lx) == Ok(tree)
  {
  }

  lemma SplitWords(name: string, words: seq<string>)
    requires Trimmed(name) && Printing.NoBrackets(name) && CleanWords(words)
    ensures SplitQuery(name + ("(" + (Printing.Join(words) + ")"))) == Some((name, Printing.Join(words)))
  {
    var body := Printing.Join(words);
    JoinedWords(words);
    BracketedOnce(name, body);
    hide WellBracketed, Strip, SplitQuery;
    RoundTrip.SplitText(name, body);
    if words == [] {
      StripBlank("");
    } else {
      StripTrimmed(body);
    }
  }

  lemma BracketedOnce(name: string, body: string)
    requires Printing.NoBrackets(name) && Printing.NoBrackets(body)
    ensures WellBracketed(name + ("(" + (body + ")")))
  {
    hide Count, Scan, Shift;
    forall c | c == '(' || c == ')' ensures Count(name + ("(" + (body + ")")), c) == 1 {
      CountAppend(name, "(" + (body + ")"), c);
      CountAppend("(", body + ")", c);
      CountAppend(body, ")", c);
      CountNone(name, c);
      CountNone(body, c);
      CountBrackets(c);
    }
    ScanPlain(name, "(" + (body + ")"), 0);
    ScanPlain(body, ")", 1);
    ScanBrackets(body);
    assert |name + ("(" + (body + ")"))| == |name| + |body| + 2;
    ShiftOk(|body| + 1, |name|);
  }

  lemma CountBrackets(c: char)
    requires c == '(' || c == ')'
    ensures Count("(", c) + Count(")", c) == 1
  {
    assert "("[1..] == "" && ")"[1..] == "";
  }

  lemma ScanBrackets(body: string)
    requires Scan(body + ")", 1) == Shift(Scan(")", 1), |body|)
    ensures Scan("(" + (body + ")"), 0) == Ok(|body| + 1)
  {
    assert ("(" + (body + ")"))[1..] == body + ")";
    assert Scan(")", 1) == Ok(0);
  }

  lemma ShiftOk(i: nat, k: nat)
    ensures Shift(Ok(i), k) == Ok(i + k)
  {
  }

  predicate IsPlain(query: string) {
    Strip(query) == [] || Strip(query)[0] != '#'
  }

  /** Text without a leading '#' always parses: to the default operator over the terms of its words, in order. */
  lemma PlainTextIsFlat(query: string, m: Model, lx: Lexicon)
    requires IsPlain(query) && CleanWords(lx.tokenize(Strip(query)))
    ensures var r := Parse(Prepared(query, m, lx), lx);
            && r.Ok? && r.value.Node? && r.value.op == (if m.BM25? then SUM else AND)
            && r.value.args == WordArgs(lx.tokenize(Strip(query)), lx)
  {
    var words := lx.tokenize(Strip(query));
    DefaultTree(m);
    hide SplitQuery, ParseArgs, Parse, Strip, Printing.Join, CreateOperator, DefaultOperator, WordArgs;
    SplitWords(DefaultOperator(m), words);
    ParseSplit(Prepared(query, m, lx), lx);
    ParseWords(CreateOperator(DefaultOperator(m)).value, words, lx);
    assert [] + WordArgs(words, lx) == WordArgs(words, lx);
  }

  lemma ParseSplit(s: string, lx: Lexicon)
    ensures SplitQuery(s).Some? && CreateOperator(SplitQuery(s).value.0).Ok? ==>
              && CreateOperator(SplitQuery(s).value.0).value.Node?
              && Parse(s, lx) == ParseArgs(CreateOperator(SplitQuery(s).value.0).value, SplitQuery(s).value.1, lx)
  {
    hide SplitQuery, ParseArgs;
  }

  lemma DefaultTree(m: Model)
    ensures Trimmed(DefaultOperator(m)) && Printing.NoBrackets(DefaultOperator(m))
    ensures var r := CreateOperator(DefaultOperator(m));
            r.Ok? && r.value.Node? && r.value.op == (if m.BM25? then SUM else AND) && r.value.args == []
  {
    DefaultOperators();
    hide OpOf, ToUpper;
  }

  lemma {:induction false} WordArgsAreScored(words: seq<string>, lx: Lexicon)
    ensures forall i :: 0 <= i < |WordArgs(words, lx)| ==> SumConversion.ScoredTerm(WordArgs(words, lx)[i])
  {
    if words != [] {
      CreatedAreTerms(words[0], lx);
      WordArgsAreScored(words[1..], lx);
      hide CreateTerms;
      assert forall i :: 0 <= i < |CreateTerms(words[0], lx)| ==>
               SumConversion.ScoredTerm(ScoredAll(CreateTerms(words[0], lx))[i]);
    }
  }

  /**
   A BM25 search for plain text ranks the bag of its words as it was written, every score divided by one
   constant; it raises an exception only if no word is left or a score is undefined.
   */
  lemma PlainSearchKeepsRanking(query: string, ix: Index, m: Model, lx: Lexicon, n: nat, r: Result<seq<Entry>>,
      written: seq<Entry>)
    requires ValidIndex(ix) && m.BM25? && SearchAnswers(query, ix, m, lx, n, r)
    requires IsPlain(query) && CleanWords(lx.tokenize(Strip(query)))
    ensures var q := Parse(Prepared(query, m, lx), lx);
            && q.Ok? && q.value.Node? && q.value.op.SUM? && q.value.args == WordArgs(lx.tokenize(Strip(query)), lx)
            && (q.value.args == [] ==> r.Raised?)
            && (q.value.args != [] ==>
                  SumConversion.BagOfWords(q.value)
                  && (Answers(q.value, ix, m, n, Ok(written)) ==>
                      r == Ok(Scaled(written, SumConversion.Divisor(q.value)))))
  {
    hide Answers, Optimize, Parse, Prepared, Strip, WordArgs, ValidIndex, IsPlain;
    PlainTextIsFlat(query, m, lx);
    var q := Parse(Prepared(query, m, lx), lx).value;
    if q.args == [] {
      NothingToOptimize(q);
    } else {
      WordArgsAreScored(lx.tokenize(Strip(query)), lx);
      if Answers(q, ix, m, n, Ok(written)) {
        BagKeepsRanking(q, ix, m, n, written);
        AnswerIsUnique(Optimize(q).value, ix, m, n, r, Ok(Scaled(written, SumConversion.Divisor(q))));
      }
    }
  }

  lemma NothingToOptimize(q: Qry)
    requires q.Node? && q.args == []
    ensures Optimize(q) == None
  {
  }
}
