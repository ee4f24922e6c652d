/** The texts the program actually prints, and what the parser makes of them. */
module QueryTexts {
  import opened Wrappers
  import opened QueryTree
  import opened Text
  import opened QryParser
  import opened Printing
  import opened RoundTrip

  // ----- __str__

  lemma {:induction false} StrArgsRender(q: Qry, i: nat)
    requires q.Node? && i <= |q.args|
    ensures StrArgs(q, i) == Joined(q, i, Display) + (if i == |q.args| then "" else " ")
    decreases q, 0, |q.args| - i
  {
    if i < |q.args| {
      StrIsRender(q.args[i]);
      StrArgsRender(q, i + 1);
    }
  }

  /** The display text is the display style of the printer. */
  lemma {:induction false} StrIsRender(q: Qry)
    ensures Str(q) == Render(q, Display)
    decreases q, 1
  {
    if q.Node? {
      StrArgsRender(q, 0);
    }
  }

  /**
   Parsing the display text of a well-typed query gives the query back, exactly when no WSUM in it has
   arguments; in the other case it is a syntax error.
   */
  lemma StrReadsBack(q: Qry, lx: Lexicon)
    requires NumbersAreNotQueries(lx) && q.Node? && WellTyped(q) && Printable(q, Display, lx)
    ensures Parse(Str(q), lx) == Ok(q) <==> Unweighted(q)
    ensures !Unweighted(q) ==> Parse(Str(q), lx).Raised?
  {
    StrIsRender(q);
    ReadBack(q, Display, lx);
    hide Printable, Parse, Render;
  }

  // ----- Feedback queries

  function ScoredTerms(terms: seq<(string, real)>, field: string): (r: seq<Qry>)
    ensures |r| == |terms| && forall i :: 0 <= i < |r| ==> r[i] == Scored(Term(terms[i].0, field))
  {
    seq(|terms|, i requires 0 <= i < |terms| => Scored(Term(terms[i].0, field)))
  }

  function ScoredWords(terms: seq<string>): (r: seq<Qry>)
    ensures |r| == |terms| && forall i :: 0 <= i < |r| ==> r[i] == Scored(Term(terms[i], "body"))
  {
    seq(|terms|, i requires 0 <= i < |terms| => Scored(Term(terms[i], "body")))
  }

  function TermWeights(terms: seq<(string, real)>): (r: seq<real>)
    ensures |r| == |terms| && forall i :: 0 <= i < |r| ==> r[i] == terms[i].1
  {
    seq(|terms|, i requires 0 <= i < |terms| => terms[i].1)
  }

  /** The tree a learned query means. */
  function LearnedTree(okapi: bool, terms: seq<(string, real)>, field: string): Qry {
    if okapi then Node(SUM, "#SUM", ScoredTerms(terms, field), [])
    else Node(WSUM, "#WSUM", ScoredTerms(terms, field), TermWeights(terms))
  }

  function OriginalTree(terms: seq<string>): Qry {
    Node(SUM, "#SUM", ScoredWords(terms), [])
  }

  function FeedbackTree(okapi: bool, terms: seq<(string, real)>, field: string, original: seq<string>,
      weight: real): Qry {
    if weight > 0.0 then
      Node(WSUM, "#WSUM", [OriginalTree(original), LearnedTree(okapi, terms, field)], [weight, 1.0 - weight])
    else LearnedTree(okapi, terms, field)
  }

  lemma {:induction false} JoinIsJoined(parts: seq<string>, q: Qry, i: nat, show: Show)
    requires q.Node? && |parts| == |q.args| && i <= |q.args|
    requires forall j :: 0 <= j < |parts| ==>
             parts[j] == WeightText(q, j, Feedback(show)) + Render(Printed(q, j, Feedback(show)), Feedback(show))
    ensures Join(parts[i..]) == Joined(q, i, Feedback(show))
    decreases |q.args| - i
  {
    hide Printed, WeightText;
    if i < |q.args| {
      JoinIsJoined(parts, q, i + 1, show);
      assert parts[i..][1..] == parts[i + 1..];
    }
  }

  /** A bracketed list of parts is the feedback style of the node with these arguments. */
  lemma BracketedIsRender(parts: seq<string>, q: Qry, show: Show)
    requires q.Node? && |parts| == |q.args|
    requires forall j :: 0 <= j < |parts| ==>
             parts[j] == WeightText(q, j, Feedback(show)) + Render(Printed(q, j, Feedback(show)), Feedback(show))
    ensures Bracketed(q.name, parts) == Render(q, Feedback(show))
  {
    hide Printed, WeightText;
    JoinIsJoined(parts, q, 0, show);
    assert parts[0..] == parts;
    if q.args == [] {
      assert q.name + "( " + "" + " )" == q.name + "(" + "  " + "" + "" + ")";
    } else {
      var j := Joined(q, 0, Feedback(show));
      assert q.name + "( " + j + " )" == q.name + "(" + " " + j + " " + ")";
    }
  }

  lemma ScoredTermText(q: Qry, i: nat, t: Qry, show: Show)
    requires q.Node? && !q.IsIop() && !q.op.SCORE? && i < |q.args| && t.Term? && q.args[i] == Scored(t)
    ensures Render(Printed(q, i, Feedback(show)), Feedback(show)) == t.term + "." + t.field
  {
  }

  lemma LearnedIsRender(okapi: bool, terms: seq<(string, real)>, field: string, show: Show)
    ensures LearnedText(okapi, terms, field, show) == Render(LearnedTree(okapi, terms, field), Feedback(show))
  {
    hide Render, Printed;
    var q := LearnedTree(okapi, terms, field);
    forall i | 0 <= i < |terms|
      ensures Render(Printed(q, i, Feedback(show)), Feedback(show)) == terms[i].0 + "." + field
    {
      ScoredTermText(q, i, Term(terms[i].0, field), show);
    }
    var texts := if okapi then seq(|terms|, i requires 0 <= i < |terms| => terms[i].0 + "." + field)
      else seq(|terms|, i requires 0 <= i < |terms| => show(terms[i].1) + " " + (terms[i].0 + "." + field));
    BracketedIsRender(texts, q, show);
  }

  lemma OriginalIsRender(terms: seq<string>, show: Show)
    ensures OriginalText(terms) == Render(OriginalTree(terms), Feedback(show))
  {
    hide Render, Printed;
    var q := OriginalTree(terms);
    forall i | 0 <= i < |terms|
      ensures Render(Printed(q, i, Feedback(show)), Feedback(show)) == terms[i] + "." + "body"
    {
      ScoredTermText(q, i, Term(terms[i], "body"), show);
    }
    BracketedIsRender(seq(|terms|, i requires 0 <= i < |terms| => terms[i] + "." + "body"), q, show);
  }

  /** The feedback text is the feedback style of its tree. */
  lemma FeedbackIsRender(okapi: bool, terms: seq<(string, real)>, field: string, original: seq<string>, weight: real,
      show: Show)
    ensures FeedbackText(okapi, terms, field, original, weight, show) ==
            Render(FeedbackTree(okapi, terms, field, original, weight), Feedback(show))
  {
    hide Render, LearnedText, OriginalText, LearnedTree, OriginalTree, Bracketed;
    LearnedIsRender(okapi, terms, field, show);
    if weight > 0.0 {
      OriginalIsRender(original, show);
      NotElided(okapi, terms, field, original);
      var q := FeedbackTree(okapi, terms, field, original, weight);
      var o, l := OriginalText(original), LearnedText(okapi, terms, field, show);
      TwoParts(show(weight), o, show(1.0 - weight), l);
      BracketedIsRender([show(weight) + " " + o, show(1.0 - weight) + " " + l], q, show);
    }
  }

  lemma TwoParts(v: string, o: string, w: string, l: string)
    ensures "#WSUM( " + v + " " + o + " " + w + " " + l + " )" == Bracketed("#WSUM", [v + " " + o, w + " " + l])
  {
    var parts := [v + " " + o, w + " " + l];
    assert parts[1..] == [parts[1]];
    assert Join(parts) == parts[0] + " " + parts[1];
    assert "#WSUM( " + v + " " + o + " " + w + " " + l + " )" == "#WSUM" + "( " + (parts[0] + " " + parts[1]) + " )";
  }

  lemma NotElided(okapi: bool, terms: seq<(string, real)>, field: string, original: seq<string>)
    ensures LearnedTree(okapi, terms, field).Node? && !LearnedTree(okapi, terms, field).op.SCORE?
    ensures OriginalTree(original).Node? && !OriginalTree(original).op.SCORE?
  {
  }

  /** Every term, field and weight that goes into a feedback query reads back as itself. */
  ghost predicate CleanFeedback(terms: seq<(string, real)>, field: string, original: seq<string>, weight: real,
      show: Show, lx: Lexicon) {
    && (forall i :: 0 <= i < |terms| ==> CleanTerm(terms[i].0, field, lx) && CleanWeight(terms[i].1, show, lx))
    && (forall i :: 0 <= i < |original| ==> CleanTerm(original[i], "body", lx))
    && (weight > 0.0 ==> CleanWeight(weight, show, lx) && CleanWeight(1.0 - weight, show, lx))
  }

  lemma OperatorNames()
    ensures CleanName(SUM, "#SUM") && CleanName(WSUM, "#WSUM") && CleanName(SCORE, "#SCORE")
  {
    NameIs("#SUM", "#sum");
    NameIs("#WSUM", "#wsum");
    NameIs("#SCORE", "#score");
  }

  lemma NameIs(upper: string, lower: string)
    requires (upper == "#SUM" && lower == "#sum") || (upper == "#WSUM" && lower == "#wsum")
             || (upper == "#SCORE" && lower == "#score")
    ensures ToLower(upper) == lower && ToUpper(upper) == upper && Trimmed(upper) && NoBrackets(upper) && '/' !in lower
  {
  }

  lemma ScoredTermPrintable(t: Qry, style: Style, lx: Lexicon)
    requires t.Term? && CleanTerm(t.term, t.field, lx)
    ensures Printable(Scored(t), style, lx) && WellTyped(Scored(t))
  {
    OperatorNames();
    hide CleanName, CleanTerm;
    assert Scored(t).Args() == [t];
  }

  lemma FeedbackPrintable(okapi: bool, terms: seq<(string, real)>, field: string, original: seq<string>, weight: real,
      show: Show, lx: Lexicon)
    requires CleanFeedback(terms, field, original, weight, show, lx)
    ensures var q := FeedbackTree(okapi, terms, field, original, weight);
            q.Node? && Printable(q, Feedback(show), lx) && WellTyped(q)
  {
    OperatorNames();
    var l, o := LearnedTree(okapi, terms, field), OriginalTree(original);
    hide CleanName, CleanTerm, CleanWeight;
    forall i | 0 <= i < |terms| ensures Printable(l.args[i], Feedback(show), lx) && WellTyped(l.Args()[i]) {
      ScoredTermPrintable(Term(terms[i].0, field), Feedback(show), lx);
    }
    forall i | 0 <= i < |original| ensures Printable(o.args[i], Feedback(show), lx) && WellTyped(o.Args()[i]) {
      ScoredTermPrintable(Term(original[i], "body"), Feedback(show), lx);
    }
    assert Printable(l, Feedback(show), lx) && WellTyped(l);
    assert Printable(o, Feedback(show), lx) && WellTyped(o);
    hide LearnedTree, OriginalTree;
    NotElided(okapi, terms, field, original);
  }

  /** The ranker reads a feedback query back with the same structure, weights and fields. */
  lemma FeedbackReadsBack(okapi: bool, terms: seq<(string, real)>, field: string, original: seq<string>, weight: real,
      show: Show, lx: Lexicon)
    requires NumbersAreNotQueries(lx) && CleanFeedback(terms, field, original, weight, show, lx)
    ensures Parse(FeedbackText(okapi, terms, field, original, weight, show), lx) ==
            Ok(FeedbackTree(okapi, terms, field, original, weight))
  {
    FeedbackIsRender(okapi, terms, field, original, weight, show);
    FeedbackPrintable(okapi, terms, field, original, weight, show, lx);
    ReadBack(FeedbackTree(okapi, terms, field, original, weight), Feedback(show), lx);
    hide Printable, Parse, Render, FeedbackTree, FeedbackText;
  }

  // ----- Whatever was parsed can be printed

  /** The analyzer's tokens are plain words, and tokenizing one again gives it back. */
  ghost predicate CleanTokens(lx: Lexicon) {
    forall s: string, i :: 0 <= i < |lx.tokenize(s)| ==> CleanToken(lx.tokenize(s)[i], lx)
  }

  predicate CleanToken(t: string, lx: Lexicon) {
    IsWord(t) && NoBrackets(t) && t[0] != '#' && lx.tokenize(t) == [t]
  }

  lemma UpperKeepsShape(s: string)
    requires Trimmed(s) && NoBrackets(s)
    ensures Trimmed(ToUpper(s)) && NoBrackets(ToUpper(s)) && (s[0] == '#' ==> ToUpper(s)[0] == '#')
  {
    assert !IsSpace(Upper(s[0])) && !IsSpace(Upper(s[|s| - 1]));
    forall i | 0 <= i < |s| ensures ToUpper(s)[i] != '(' && ToUpper(s)[i] != ')' {
      assert s[i] in s;
    }
  }

  lemma OperatorStartsWithHash(name: string)
    requires OpOf(name).Some?
    ensures name != [] && name[0] == '#'
  {
    var lower := ToLower(name);
    if '/' in lower {
      var k := FirstIndex(lower, '/');
      assert lower[..k] == "#near" || lower[..k] == "#window";
      assert lower[0] == lower[..k][0];
    }
    assert lower[0] == '#';
  }

  /** A name the parser accepted is stored in a form the parser accepts again. */
  lemma StoredNameIsClean(name: string)
    requires CreateOperator(name).Ok? && Trimmed(name) && NoBrackets(name)
    ensures var q := CreateOperator(name).value; q == Node(q.op, q.name, [], []) && CleanName(q.op, q.name)
  {
    hide LowerCaseOp, IsSpace;
    UpperKeepsShape(name);
    OperatorStartsWithHash(name);
    CaseIsStable(name);
  }

  lemma SplitNameIsClean(s: string)
    requires SplitQuery(s).Some?
    ensures var name := SplitQuery(s).value.0; NoBrackets(name) && (name == [] || Trimmed(name))
  {
    var t := Strip(s);
    BracketsDelimit(t);
    var k := FirstIndex(t, '(');
    ScanBeforeOpen(t, k);
    StripTrims(t[..k]);
    StripKeepsBrackets(t[..k]);
  }

  lemma StripKeepsBrackets(s: string)
    requires NoBrackets(s)
    ensures NoBrackets(Strip(s))
  {
    var l := LStrip(s);
    forall i | 0 <= i < |l| ensures l[i] in s {
      assert s[|s| - |l|..][i] == s[|s| - |l| + i];
    }
    var r := RStrip(l);
    forall i | 0 <= i < |r| ensures r[i] in s {
      assert l[..|r|][i] == l[i];
    }
  }

  lemma AppendKeepsPrintable(tree: Qry, arg: Qry, weight: real, lx: Lexicon)
    requires tree.Node? && Printable(tree, Display, lx) && Printable(arg, Display, lx)
             && AppendArg(tree, arg, weight).Ok?
    ensures AppendArg(tree, arg, weight).value.Node? && Printable(AppendArg(tree, arg, weight).value, Display, lx)
  {
    OperatorNames();
    hide CleanName, CleanTerm;
    assert Printable(Scored(arg), Display, lx);
  }

  lemma {:induction false} AppendAllKeepsPrintable(tree: Qry, args: seq<Qry>, weight: real, lx: Lexicon)
    requires tree.Node? && Printable(tree, Display, lx) && forall i :: 0 <= i < |args| ==>
             Printable(args[i], Display, lx)
    ensures AppendAll(tree, args, weight).Ok? ==> Printable(AppendAll(tree, args, weight).value, Display, lx)
    decreases |args|
  {
    hide Printable, AppendArg;
    if args != [] && AppendArg(tree, args[0], weight).Ok? {
      AppendKeepsPrintable(tree, args[0], weight, lx);
      AppendAllKeepsPrintable(AppendArg(tree, args[0], weight).value, args[1..], weight, lx);
    }
  }

  lemma TermsPrintable(token: string, lx: Lexicon)
    requires CleanTokens(lx)
    ensures forall i :: 0 <= i < |CreateTerms(token, lx)| ==> Printable(CreateTerms(token, lx)[i], Display, lx)
  {
    forall i | 0 <= i < |CreateTerms(token, lx)| ensures Printable(CreateTerms(token, lx)[i], Display, lx) {
      assert CleanToken(lx.tokenize(TermAndField(token).0)[i], lx);
      hide CleanTokens;
    }
  }

  lemma {:induction false} PoppedPrintable(tree: Qry, s: string, lx: Lexicon)
    requires CleanTokens(lx) && tree.Node? && s != [] && PopArg(tree, s, lx).Ok?
    ensures var args := PopArg(tree, s, lx).value.args; forall i :: 0 <= i < |args| ==> Printable(args[i], Display, lx)
    decreases |s|, 1
  {
    hide Printable, CleanTokens, CreateTerms, PopSubquery, PopTerm, PopWeight, Strip;
    var t := PopWeight(tree, s, lx).value.1;
    if t != [] && t[0] == '#' {
      ParsedIsPrintable(PopSubquery(t).value.0, lx);
    } else {
      TermsPrintable(PopTerm(t).value.0, lx);
    }
  }

  lemma {:induction false} ParsedArgsPrintable(tree: Qry, s: string, lx: Lexicon)
    requires CleanTokens(lx) && tree.Node? && Printable(tree, Display, lx)
    ensures ParseArgs(tree, s, lx).Ok? ==> Printable(ParseArgs(tree, s, lx).value, Display, lx)
    decreases |s|, 2
  {
    hide Printable, CleanTokens, PopArg, AppendAll;
    if s != [] && PopArg(tree, s, lx).Ok? {
      var p := PopArg(tree, s, lx).value;
      PoppedPrintable(tree, s, lx);
      AppendAllKeepsPrintable(tree, p.args, p.weight, lx);
      if AppendAll(tree, p.args, p.weight).Ok? {
        ParsedArgsPrintable(AppendAll(tree, p.args, p.weight).value, p.rest, lx);
      }
    }
  }

  lemma {:induction false} ParsedIsPrintable(s: string, lx: Lexicon)
    requires CleanTokens(lx)
    ensures Parse(s, lx).Ok? ==> Printable(Parse(s, lx).value, Display, lx)
    decreases |s|, 0
  {
    hide Printable, CleanTokens, SplitQuery, CreateOperator, ParseArgs;
    if SplitQuery(s).Some? && CreateOperator(SplitQuery(s).value.0).Ok? {
      var name := SplitQuery(s).value.0;
      SplitNameIsClean(s);
      NamedOperator(name);
      StoredNameIsClean(name);
      EmptyNodePrintable(CreateOperator(name).value, lx);
      ParsedArgsPrintable(CreateOperator(name).value, SplitQuery(s).value.1, lx);
    }
  }

  lemma NamedOperator(name: string)
    requires CreateOperator(name).Ok?
    ensures name != []
  {
    OperatorStartsWithHash(name);
  }

  lemma EmptyNodePrintable(q: Qry, lx: Lexicon)
    requires q.Node? && q == Node(q.op, q.name, [], []) && CleanName(q.op, q.name)
    ensures Printable(q, Display, lx)
  {
  }

  /** Displaying what was parsed and parsing it again gives the same query, unless a WSUM has arguments. */
  lemma ParseDisplayParse(s: string, lx: Lexicon)
    requires NumbersAreNotQueries(lx) && CleanTokens(lx) && Parse(s, lx).Ok?
    ensures Parse(Str(Parse(s, lx).value), lx) == Parse(s, lx) <==> Unweighted(Parse(s, lx).value)
  {
    ParsedIsPrintable(s, lx);
    ParseIsWellTyped(s, lx);
    StrReadsBack(Parse(s, lx).value, lx);
  }
}
