/** Parsing undoes printing. */
module RoundTrip {
  import opened Wrappers
  import opened QueryTree
  import opened Text
  import opened QryParser
  import opened Printing

  /** float() accepts nothing that starts with '#'. */
  ghost predicate NumbersAreNotQueries(lx: Lexicon) {
    forall s: string :: s != [] && s[0] == '#' ==> lx.parseFloat(s).None?
  }

  // ----- Taking the text apart again

  lemma TakeApart(name: string, inside: string)
    ensures var t := name + ("(" + (inside + ")"));
            && |t| == |name| + |inside| + 2
            && t[..|name|] == name && t[|name|] == '(' && t[|name| + 1..] == inside + ")" && t[|t| - 1] == ')'
    ensures (inside + ")")[..|inside|] == inside && (inside + ")")[|inside|] == ')'
            && (inside + ")")[|inside| + 1..] == ""
  {
  }

  lemma SplitText(name: string, inside: string)
    requires Trimmed(name) && NoBrackets(name) && WellBracketed(name + ("(" + (inside + ")")))
    ensures SplitQuery(name + ("(" + (inside + ")"))) == Some((name, Strip(inside)))
  {
    hide WellBracketed, Strip, FirstIndex, LastIndex, IsSpace;
    var t := name + ("(" + (inside + ")"));
    TakeApart(name, inside);
    NotSpaceBracket();
    StripTrimmed(t);
    StripTrimmed(name);
    FirstIndexIs(t, '(', |name|);
    LastIndexIs(inside + ")", ')', |inside|);
  }

  lemma NotSpaceBracket()
    ensures !IsSpace(')')
  {
  }

  lemma SplitNode(name: string, lead: string, body: string, trail: string)
    requires Trimmed(name) && NoBrackets(name)
    requires (forall i :: 0 <= i < |lead| ==> IsSpace(lead[i])) && forall i :: 0 <= i < |trail| ==> IsSpace(trail[i])
    requires body == "" || Trimmed(body)
    requires WellBracketed(name + "(" + lead + body + trail + ")")
    ensures SplitQuery(name + "(" + lead + body + trail + ")") == Some((name, body))
  {
    hide WellBracketed, SplitQuery, Strip, IsSpace;
    var inside := lead + body + trail;
    assert name + "(" + lead + body + trail + ")" == name + ("(" + (inside + ")"));
    SplitText(name, inside);
    if body == "" {
      assert forall i :: 0 <= i < |inside| ==> IsSpace(inside[i]);
      StripBlank(inside);
    } else {
      StripOf(lead, body, trail);
    }
  }

  /** The parser finds the operator name and the argument text of a printed query. */
  lemma SplitRender(q: Qry, style: Style, lx: Lexicon)
    requires q.Node? && Printable(q, style, lx)
    ensures SplitQuery(Render(q, style)) == Some((q.name, Joined(q, 0, style)))
  {
    hide Render, Joined, Lead, Trail, Printable, CleanName, WellBracketed, SplitQuery;
    RenderBracketed(q, style, lx);
    NodeText(q, style, lx);
    NameIsTrimmed(q, style, lx);
    if q.args == [] {
      NothingJoined(q, style);
    } else {
      JoinedTrimmed(q, 0, style, lx);
    }
    SplitNode(q.name, Lead(q, style), Joined(q, 0, style), Trail(q));
  }

  lemma RenderBracketed(q: Qry, style: Style, lx: Lexicon)
    requires q.Node? && Printable(q, style, lx)
    ensures WellBracketed(Render(q, style))
  {
    hide Render, Printable, Count, Scan;
    CountRender(q, style, lx);
    ScanRender(q, style, lx, "", 0);
    assert Render(q, style) + "" == Render(q, style);
  }

  lemma NameIsTrimmed(q: Qry, style: Style, lx: Lexicon)
    requires q.Node? && Printable(q, style, lx)
    ensures Trimmed(q.name)
  {
    hide CreateOperator, CleanTerm, CleanWeight;
    assert CleanName(q.op, q.name);
  }

  lemma StripRest(q: Qry, i: nat, style: Style, lx: Lexicon)
    requires q.Node? && Printable(q, style, lx) && i <= |q.args|
    ensures Strip(Rest(q, i, style)) == Joined(q, i, style)
  {
    hide Printable;
    if i == |q.args| {
      NothingJoined(q, style);
    } else {
      JoinedTrimmed(q, i, style, lx);
      hide Joined;
      StripOf(" ", Joined(q, i, style), "");
      assert " " + Joined(q, i, style) + "" == " " + Joined(q, i, style);
    }
  }

  /** Popping a printed subquery leaves the text of the remaining arguments. */
  lemma PopPrintedQuery(q: Qry, i: nat, style: Style, lx: Lexicon)
    requires q.Node? && Printable(q, style, lx) && i < |q.args| && Printed(q, i, style).Node?
    ensures var a, r := Render(Printed(q, i, style), style), Rest(q, i + 1, style);
            a + r != [] && (a + r)[0] == '#' && PopSubquery(a + r) == Ok((a, r))
  {
    hide Printable, Render, Rest, Joined, Printed, Scan;
    var p, r := Printed(q, i, style), Rest(q, i + 1, style);
    var a := Render(p, style);
    PrintedPrintable(q, i, style, lx);
    RenderShape(p, style, lx);
    ScanRender(p, style, lx, r, 0);
    assert (a + r)[..|a|] == a && (a + r)[|a|..] == r;
  }

  /** Popping a printed term leaves the text of the remaining arguments. */
  lemma PopPrintedTerm(q: Qry, i: nat, style: Style, lx: Lexicon)
    requires q.Node? && Printable(q, style, lx) && i < |q.args| && Printed(q, i, style).Term?
    ensures var a, r := Render(Printed(q, i, style), style), Rest(q, i + 1, style);
            && a + r != [] && (a + r)[0] != '#'
            && PopTerm(a + r).Some? && PopTerm(a + r).value.0 == a
            && Strip(PopTerm(a + r).value.1) == Joined(q, i + 1, style)
            && CreateTerms(a, lx) == [Printed(q, i, style)]
  {
    hide Printable, Joined, Printed, PopTerm, CreateTerms, Strip;
    var p := Printed(q, i, style);
    var a := Render(p, style);
    PrintedPrintable(q, i, style, lx);
    RenderShape(p, style, lx);
    TermIsClean(p, style, lx);
    TermText(p, lx);
    StripRest(q, i + 1, style, lx);
    if i + 1 == |q.args| {
      assert a + "" == a;
      PopLastWord(a);
    } else {
      JoinedTrimmed(q, i + 1, style, lx);
      assert a + (" " + Joined(q, i + 1, style)) == a + " " + Joined(q, i + 1, style);
      PopFirstWord(a, Joined(q, i + 1, style));
      StripTrimmed(Joined(q, i + 1, style));
    }
  }

  lemma TermIsClean(q: Qry, style: Style, lx: Lexicon)
    requires q.Term? && Printable(q, style, lx)
    ensures CleanTerm(q.term, q.field, lx)
  {
  }

  /** The weight an argument is appended with. */
  function WeightOf(q: Qry, i: nat): real
    requires q.Node?
  {
    if q.op.WSUM? && i < |q.weights| then q.weights[i] else 1.0
  }

  lemma ItemTrimmed(q: Qry, i: nat, style: Style, lx: Lexicon)
    requires q.Node? && Printable(q, style, lx) && i < |q.args|
    ensures Trimmed(Render(Printed(q, i, style), style) + Rest(q, i + 1, style))
  {
    hide Printable, Joined, Printed, Render, IsSpace;
    PrintedPrintable(q, i, style, lx);
    RenderShape(Printed(q, i, style), style, lx);
    if i + 1 < |q.args| {
      JoinedTrimmed(q, i + 1, style, lx);
    }
  }

  lemma PopNumber(w: real, t: string, show: Show, lx: Lexicon, tree: Qry)
    requires CleanWeight(w, show, lx) && Trimmed(t) && tree.Node? && tree.op.WSUM?
    ensures PopWeight(tree, show(w) + " " + t, lx) == Ok((w, t))
  {
    PopFirstWord(show(w), t);
    hide PopTerm, Trimmed;
  }

  /** In front of every argument the parser finds the weight that was printed. */
  lemma PopPrintedWeight(q: Qry, i: nat, style: Style, lx: Lexicon, tree: Qry)
    requires q.Node? && Printable(q, style, lx) && i < |q.args| && tree.Node? && tree.op == q.op
    requires style.Feedback? || !q.op.WSUM?
    ensures PopWeight(tree, Joined(q, i, style), lx) ==
            Ok((WeightOf(q, i), Render(Printed(q, i, style), style) + Rest(q, i + 1, style)))
  {
    hide Printable, Joined, Printed, Render, Rest, PopTerm, Trimmed, CleanWeight;
    ItemTrimmed(q, i, style, lx);
    JoinedParts(q, i, style);
    WeightsClean(q, i, style, lx);
    var t := Render(Printed(q, i, style), style) + Rest(q, i + 1, style);
    if q.op.WSUM? {
      var w := style.show(q.weights[i]);
      assert Joined(q, i, style) == w + " " + t;
      PopNumber(q.weights[i], t, style.show, lx, tree);
    } else {
      assert Joined(q, i, style) == t;
    }
  }

  lemma WeightsClean(q: Qry, i: nat, style: Style, lx: Lexicon)
    requires q.Node? && Printable(q, style, lx) && i < |q.args|
    ensures q.op.WSUM? ==> |q.weights| == |q.args|
    ensures q.op.WSUM? && style.Feedback? ==> CleanWeight(q.weights[i], style.show, lx)
  {
  }

  /** What popping gives when the weight and the rest of the text are known. */
  lemma PopArgSteps(tree: Qry, s: string, lx: Lexicon, weight: real, t: string)
    requires tree.Node? && s != [] && PopWeight(tree, s, lx) == Ok((weight, t)) && t != []
    ensures t[0] == '#' && PopSubquery(t).Ok? ==>
              PopArg(tree, s, lx) ==
              match Parse(PopSubquery(t).value.0, lx)
                case Raised(e) => Raised(e)
                case Ok(x) => Ok(Popped([x], weight, Strip(PopSubquery(t).value.1)))
    ensures t[0] != '#' && PopTerm(t).Some? ==>
              PopArg(tree, s, lx) == Ok(Popped(CreateTerms(PopTerm(t).value.0, lx), weight, Strip(PopTerm(t).value.1)))
  {
    hide PopWeight, PopSubquery, PopTerm, Parse, Strip, CreateTerms;
  }

  /** The parser pops the printed argument, provided it can read it back. */
  lemma PopPrinted(q: Qry, i: nat, style: Style, lx: Lexicon, tree: Qry)
    requires q.Node? && Printable(q, style, lx) && i < |q.args| && tree.Node? && tree.op == q.op
    requires style.Feedback? || !q.op.WSUM?
    ensures Joined(q, i, style) != []
    ensures var p := Printed(q, i, style);
            PopArg(tree, Joined(q, i, style), lx) ==
            if p.Term? then Ok(Popped([p], WeightOf(q, i), Joined(q, i + 1, style)))
            else match Parse(Render(p, style), lx)
              case Raised(e) => Raised(e)
              case Ok(x) => Ok(Popped([x], WeightOf(q, i), Joined(q, i + 1, style)))
  {
    hide Printable, Joined, Printed, Render, Rest, PopTerm, PopSubquery, Parse, Strip, CreateTerms, PopWeight, PopArg;
    JoinedTrimmed(q, i, style, lx);
    PopPrintedWeight(q, i, style, lx, tree);
    StripRest(q, i + 1, style, lx);
    ItemTrimmed(q, i, style, lx);
    PopArgSteps(tree, Joined(q, i, style), lx, WeightOf(q, i),
                Render(Printed(q, i, style), style) + Rest(q, i + 1, style));
    if Printed(q, i, style).Term? {
      PopPrintedTerm(q, i, style, lx);
    } else {
      PopPrintedQuery(q, i, style, lx);
    }
  }

  // ----- Building the tree again

  /** The tree with its first `i` arguments. */
  function Partial(q: Qry, i: nat): Qry
    requires q.Node? && i <= |q.args| && (q.op.WSUM? ==> |q.weights| == |q.args|)
  {
    Node(q.op, q.name, q.args[..i], if q.op.WSUM? then q.weights[..i] else [])
  }

  lemma AppendPrinted(q: Qry, i: nat, style: Style)
    requires q.Node? && WellTyped(q) && i < |q.args| && (q.op.WSUM? ==> |q.weights| == |q.args|)
    ensures AppendAll(Partial(q, i), [Printed(q, i, style)], WeightOf(q, i)) == Ok(Partial(q, i + 1))
  {
    var p := Printed(q, i, style);
    var tree := Partial(q, i);
    AppendOne(tree, p, WeightOf(q, i));
    PartialNext(q, i);
    assert WellTypedNode(q) && WellTyped(q.Args()[i]);
    hide AppendAll, WellTyped, Partial;
    PartialField(q, i);
    if Elided(q, i, style) {
      ScoredArg(q.args[i]);
    }
  }

  lemma PartialNext(q: Qry, i: nat)
    requires q.Node? && i < |q.args| && (q.op.WSUM? ==> |q.weights| == |q.args|)
    ensures var tree := Partial(q, i);
            && tree.Node? && tree.op == q.op && |tree.args| == i
            && Partial(q, i + 1) == tree.(args := tree.args + [q.args[i]],
                                          weights := if q.op.WSUM? then tree.weights + [WeightOf(q, i)]
                                            else tree.weights)
  {
    assert q.args[..i + 1] == q.args[..i] + [q.args[i]];
    assert q.op.WSUM? ==> q.weights[..i + 1] == q.weights[..i] + [q.weights[i]];
  }

  lemma PartialField(q: Qry, i: nat)
    requires q.Node? && i <= |q.args| && (q.op.WSUM? ==> |q.weights| == |q.args|)
    ensures i > 0 ==> FieldOf(Partial(q, i)) == FieldOf(q.args[0])
  {
    if i > 0 {
      assert Partial(q, i).args[0] == q.args[0];
    }
  }

  lemma ScoredArg(a: Qry)
    requires WellTyped(a) && a.Node? && |a.args| == 1 && a == Scored(a.args[0])
    ensures a.args[0].IsIop()
  {
  }

  lemma AppendOne(tree: Qry, p: Qry, weight: real)
    requires tree.Node?
    ensures AppendAll(tree, [p], weight) == AppendArg(tree, p, weight)
  {
    assert [p][1..] == [];
  }

  // ----- The round trip

  /** What the text of the style tells about the query: the display style loses weights. */
  predicate Readable(q: Qry, style: Style) {
    style.Feedback? || Unweighted(q)
  }

  lemma ReadableArgs(q: Qry, style: Style)
    requires q.Node?
    ensures Readable(q, style) <==>
            (style.Feedback? || !q.op.WSUM? || q.args == []) && forall i :: 0 <= i < |q.args| ==>
              Readable(q.args[i], style)
    ensures forall i :: 0 <= i < |q.args| && Elided(q, i, style) ==> Readable(Printed(q, i, style), style)
  {
  }

  /** Parsing returns the printed query, or raises an exception when the text does not determine it. */
  ghost predicate ReadsBack(q: Qry, style: Style, lx: Lexicon) {
    if Readable(q, style) then Parse(Render(q, style), lx) == Ok(q) else Parse(Render(q, style), lx).Raised?
  }

  lemma PrintedTyped(q: Qry, i: nat, style: Style)
    requires q.Node? && WellTyped(q) && i < |q.args|
    ensures WellTyped(Printed(q, i, style))
  {
    assert WellTyped(q.Args()[i]);
    if Elided(q, i, style) {
      assert WellTyped(q.args[i].Args()[0]);
    }
  }

  lemma {:induction false} ParseFrom(q: Qry, i: nat, style: Style, lx: Lexicon)
    requires NumbersAreNotQueries(lx) && q.Node? && WellTyped(q) && Printable(q, style, lx) && i <= |q.args|
    requires q.op.WSUM? ==> |q.weights| == |q.args|
    requires style.Feedback? || !q.op.WSUM?
    ensures var r := ParseArgs(Partial(q, i), Joined(q, i, style), lx);
            if forall j :: i <= j < |q.args| ==> Readable(q.args[j], style) then r == Ok(q) else r.Raised?
    decreases q, 0, |q.args| - i
  {
    hide Printable, Joined, Render, PopArg, AppendAll, Partial, Printed, WellTyped, NumbersAreNotQueries, Readable,
      Parse, Elided;
    PartialIsNode(q, i);
    if i == |q.args| {
      WholePartial(q, style, lx);
    } else {
      var p := Printed(q, i, style);
      WeightsClean(q, i, style, lx);
      PartialIsNode(q, i + 1);
      PopPrinted(q, i, style, lx, Partial(q, i));
      AppendPrinted(q, i, style);
      PrintedReadable(q, i, style);
      if p.Node? {
        PrintedTyped(q, i, style);
        PrintedPrintable(q, i, style, lx);
        ReadBack(p, style, lx);
      }
      ParseFrom(q, i + 1, style, lx);
    }
  }

  lemma PartialIsNode(q: Qry, i: nat)
    requires q.Node? && i <= |q.args| && (q.op.WSUM? ==> |q.weights| == |q.args|)
    ensures Partial(q, i).Node? && Partial(q, i).op == q.op
  {
  }

  lemma PrintedReadable(q: Qry, i: nat, style: Style)
    requires q.Node? && i < |q.args|
    ensures Readable(Printed(q, i, style), style) == Readable(q.args[i], style)
    ensures Printed(q, i, style).Term? ==> Readable(Printed(q, i, style), style)
  {
  }

  lemma WholePartial(q: Qry, style: Style, lx: Lexicon)
    requires q.Node? && Printable(q, style, lx)
    ensures Partial(q, |q.args|) == q && Joined(q, |q.args|, style) == ""
  {
    assert q.args[..|q.args|] == q.args;
    assert q.op.WSUM? ==> q.weights[..|q.args|] == q.weights;
  }

  /** A WSUM printed without weights starts with a subquery where the parser wants a number. */
  lemma UnweightedRejected(q: Qry, lx: Lexicon)
    requires NumbersAreNotQueries(lx) && q.Node? && q.op.WSUM? && q.args != [] && WellTyped(q)
             && Printable(q, Display, lx)
    requires |q.weights| == |q.args|
    ensures ParseArgs(Partial(q, 0), Joined(q, 0, Display), lx).Raised?
  {
    hide Joined, Printable, WellTyped, Render, PopTerm, Printed, Partial;
    JoinedTrimmed(q, 0, Display, lx);
    JoinedParts(q, 0, Display);
    PrintedPrintable(q, 0, Display, lx);
    RenderShape(Printed(q, 0, Display), Display, lx);
    FirstPrinted(q);
    PartialIsNode(q, 0);
    FirstWordStarts(Joined(q, 0, Display));
  }

  lemma FirstPrinted(q: Qry)
    requires q.Node? && q.op.WSUM? && q.args != [] && WellTyped(q)
    ensures Printed(q, 0, Display).Node? && WeightText(q, 0, Display) == ""
  {
  }

  lemma FirstWordStarts(t: string)
    requires Trimmed(t)
    ensures PopTerm(t).Some? && PopTerm(t).value.0 != [] && PopTerm(t).value.0[0] == t[0]
  {
    assert LStrip(t) == t;
  }

  /**
   Parsing undoes printing: for every well-typed query with clean terms, the feedback text always
   reads back as the query, and the display text does exactly when no WSUM has arguments; otherwise
   parsing it raises an exception.
   */
  lemma {:induction false} ReadBack(q: Qry, style: Style, lx: Lexicon)
    requires NumbersAreNotQueries(lx) && q.Node? && WellTyped(q) && Printable(q, style, lx)
    ensures ReadsBack(q, style, lx)
    decreases q, 1
  {
    hide Printable, Joined, Render, Partial, WellTyped, NumbersAreNotQueries, SplitQuery, ParseArgs, Readable,
      CreateOperator;
    SplitRender(q, style, lx);
    ReadableArgs(q, style);
    StartsEmpty(q, style, lx);
    if style.Display? && q.op.WSUM? && q.args != [] {
      UnweightedRejected(q, lx);
    } else if style.Display? && q.op.WSUM? {
      WholePartial(q, style, lx);
      ParsesNothing(q, lx);
    } else {
      ParseFrom(q, 0, style, lx);
    }
  }

  lemma ParsesNothing(tree: Qry, lx: Lexicon)
    requires tree.Node?
    ensures ParseArgs(tree, "", lx) == Ok(tree)
  {
  }

  lemma StartsEmpty(q: Qry, style: Style, lx: Lexicon)
    requires q.Node? && Printable(q, style, lx)
    ensures q.op.WSUM? ==> |q.weights| == |q.args|
    ensures CreateOperator(q.name) == Ok(Partial(q, 0))
  {
    assert q.args[..0] == [];
    assert q.op.WSUM? ==> q.weights[..0] == [];
  }
}
