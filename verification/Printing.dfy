/** The two ways queries are written as text, and the proof that the parser reads both back. */
module Printing {
  import opened Wrappers
  import opened QueryTree
  import opened Text
  import opened QryParser

  /** A number format, as f"{weight}" prints it. */
  type Show = real -> string

  // ----- What the program prints

  /** Qry.__str__: the display name and every argument followed by a space; weights are not printed. */
  function Str(q: Qry): string
    decreases q, 1, 0
  {
    if q.Term? then q.term + "." + q.field else q.name + "(" + StrArgs(q, 0) + ")"
  }

  function StrArgs(q: Qry, i: nat): string
    requires q.Node? && i <= |q.args|
    decreases q, 0, |q.args| - i
  {
    if i == |q.args| then "" else Str(q.args[i]) + " " + StrArgs(q, i + 1)
  }

  /** " ".join(parts) */
  function Join(parts: seq<string>): string {
    if parts == [] then "" else if |parts| == 1 then parts[0] else parts[0] + " " + Join(parts[1..])
  }

  /** "#SUM( " + " ".join(parts) + " )" and its WSUM form. */
  function Bracketed(name: string, parts: seq<string>): string {
    name + "( " + Join(parts) + " )"
  }

  /** The learned query: terms in a field, with their weights unless the algorithm is Okapi. */
  function LearnedText(okapi: bool, terms: seq<(string, real)>, field: string, show: Show): string {
    if okapi then Bracketed("#SUM", seq(|terms|, i requires 0 <= i < |terms| => terms[i].0 + "." + field))
    else Bracketed("#WSUM",
                   seq(|terms|, i requires 0 <= i < |terms| => show(terms[i].1) + " " + (terms[i].0 + "." + field)))
  }

  function OriginalText(terms: seq<string>): string {
    Bracketed("#SUM", seq(|terms|, i requires 0 <= i < |terms| => terms[i] + "." + "body"))
  }

  /** The query the feedback step hands to the ranker: the learned one, alone or beside the original. */
  function FeedbackText(okapi: bool, terms: seq<(string, real)>, field: string, original: seq<string>, weight: real,
      show: Show): string {
    var learned := LearnedText(okapi, terms, field, show);
    if weight > 0.0 then
      "#WSUM( " + show(weight) + " " + OriginalText(original) + " " + show(1.0 - weight) + " " + learned + " )"
    else learned
  }

  // ----- One printer for both styles

  /** The feedback style writes weights, and a scored argument without its implied SCORE. */
  datatype Style = Display | Feedback(show: Show)

  predicate Elided(q: Qry, i: nat, style: Style)
    requires q.Node? && i < |q.args|
  {
    style.Feedback? && !q.IsIop() && !q.op.SCORE? && q.args[i].Node? && |q.args[i].args| == 1
      && q.args[i] == Scored(q.args[i].args[0])
  }

  /** The query an argument is printed as. */
  function Printed(q: Qry, i: nat, style: Style): (r: Qry)
    requires q.Node? && i < |q.args|
    ensures r < q
  {
    if Elided(q, i, style) then q.args[i].args[0] else q.args[i]
  }

  function WeightText(q: Qry, i: nat, style: Style): string
    requires q.Node? && i < |q.args|
  {
    if style.Feedback? && q.op.WSUM? && i < |q.weights| then style.show(q.weights[i]) + " " else ""
  }

  function Render(q: Qry, style: Style): string
    decreases q, 1, 0
  {
    if q.Term? then q.term + "." + q.field
    else q.name + "(" + Lead(q, style) + Joined(q, 0, style) + Trail(q) + ")"
  }

  function Lead(q: Qry, style: Style): (r: string)
    requires q.Node?
    ensures forall i :: 0 <= i < |r| ==> IsSpace(r[i])
  {
    if style.Display? then "" else if q.args == [] then "  " else " "
  }

  function Trail(q: Qry): (r: string)
    requires q.Node?
    ensures forall i :: 0 <= i < |r| ==> IsSpace(r[i])
  {
    if q.args == [] then "" else " "
  }

  function Joined(q: Qry, i: nat, style: Style): string
    requires q.Node? && i <= |q.args|
    decreases q, 0, |q.args| - i, 0
  {
    if i == |q.args| then ""
    else WeightText(q, i, style) + Render(Printed(q, i, style), style) + Rest(q, i + 1, style)
  }

  function Rest(q: Qry, i: nat, style: Style): string
    requires q.Node? && i <= |q.args|
    decreases q, 0, |q.args| - i, 1
  {
    if i == |q.args| then "" else " " + Joined(q, i, style)
  }

  // ----- Queries that can be printed

  predicate NoBrackets(s: string) {
    '(' !in s && ')' !in s
  }

  /** A term the tokenizer leaves alone, in one of the known fields. */
  predicate CleanTerm(term: string, field: string, lx: Lexicon) {
    && IsWord(term) && NoBrackets(term) && term[0] != '#'
    && field in KNOWN_FIELDS
    && lx.tokenize(term) == [term]
  }

  /** The name of an operator, as the parser stores it. */
  predicate CleanName(op: Op, name: string) {
    && Trimmed(name) && NoBrackets(name) && name[0] == '#'
    && CreateOperator(name) == Ok(Node(op, name, [], []))
  }

  /** A weight that reads back as itself. */
  predicate CleanWeight(w: real, show: Show, lx: Lexicon) {
    && IsWord(show(w)) && NoBrackets(show(w))
    && lx.parseFloat(show(w)) == Some(w)
  }

  predicate Printable(q: Qry, style: Style, lx: Lexicon) {
    if q.Term? then CleanTerm(q.term, q.field, lx)
    else
      && CleanName(q.op, q.name)
      && (if q.op.WSUM? then |q.weights| == |q.args| else q.weights == [])
      && (style.Feedback? ==> forall i :: 0 <= i < |q.weights| ==> CleanWeight(q.weights[i], style.show, lx))
      && forall i :: 0 <= i < |q.args| ==> Printable(q.args[i], style, lx)
  }

  /** No WSUM has arguments, so printing without weights loses nothing. */
  predicate Unweighted(q: Qry) {
    q.Term? || ((q.op.WSUM? ==> q.args == []) && forall i :: 0 <= i < |q.args| ==> Unweighted(q.args[i]))
  }

  // ----- The shape of printed text

  lemma KnownFieldIsClean(field: string)
    requires field in KNOWN_FIELDS
    ensures IsWord(field) && NoBrackets(field) && '.' !in field && ToLower(field) == field
  {
  }

  lemma DottedWord(term: string, field: string)
    requires IsWord(term) && IsWord(field) && NoBrackets(term) && NoBrackets(field) && '.' !in field
    ensures var t := term + "." + field;
            IsWord(t) && NoBrackets(t) && t[0] == term[0] && Trimmed(t) && '.' in t && LastIndex(t, '.') == |term|
    ensures (term + "." + field)[..|term|] == term && (term + "." + field)[|term| + 1..] == field
  {
    var t := term + "." + field;
    assert t[|term|] == '.' && t[..|term|] == term && t[|term| + 1..] == field;
    LastIndexIs(t, '.', |term|);
  }

  lemma TermText(q: Qry, lx: Lexicon)
    requires q.Term? && CleanTerm(q.term, q.field, lx)
    ensures var t := q.term + "." + q.field;
            IsWord(t) && NoBrackets(t) && t[0] != '#' && Trimmed(t) && CreateTerms(t, lx) == [q]
  {
    hide LastIndex, KNOWN_FIELDS;
    KnownFieldIsClean(q.field);
    DottedWord(q.term, q.field);
    assert TermAndField(q.term + "." + q.field) == (q.term, q.field);
    assert Terms([q.term], q.field) == [q];
  }

  /** Printed text is trimmed; an operator starts with '#', a term is a single word that does not. */
  predicate GoodShape(q: Qry, text: string) {
    && Trimmed(text)
    && (q.Node? ==> text[0] == '#')
    && (q.Term? ==> IsWord(text) && NoBrackets(text) && text[0] != '#')
  }

  lemma RenderShape(q: Qry, style: Style, lx: Lexicon)
    requires Printable(q, style, lx)
    ensures GoodShape(q, Render(q, style))
  {
    if q.Term? {
      TermText(q, lx);
    }
  }

  lemma PrintedPrintable(q: Qry, i: nat, style: Style, lx: Lexicon)
    requires q.Node? && Printable(q, style, lx) && i < |q.args|
    ensures Printable(Printed(q, i, style), style, lx)
  {
    assert Printable(q.args[i], style, lx);
  }

  lemma JoinedParts(q: Qry, i: nat, style: Style)
    requires q.Node? && i < |q.args|
    ensures Joined(q, i, style) == WeightText(q, i, style) + Render(Printed(q, i, style), style) + Rest(q, i + 1, style)
    ensures Rest(q, i + 1, style) == if i + 1 == |q.args| then "" else " " + Joined(q, i + 1, style)
  {
  }

  lemma NothingJoined(q: Qry, style: Style)
    requires q.Node?
    ensures Joined(q, |q.args|, style) == ""
  {
  }

  lemma {:induction false} JoinedTrimmed(q: Qry, i: nat, style: Style, lx: Lexicon)
    requires q.Node? && Printable(q, style, lx) && i < |q.args|
    ensures Trimmed(Joined(q, i, style))
    decreases |q.args| - i
  {
    hide Printable, Render, Joined, Rest, Printed, WeightText, IsSpace, CleanWeight;
    PrintedPrintable(q, i, style, lx);
    RenderShape(Printed(q, i, style), style, lx);
    if i + 1 < |q.args| {
      JoinedTrimmed(q, i + 1, style, lx);
    }
    WeightIsWord(q, i, style, lx);
    JoinedParts(q, i, style);
  }

  lemma WeightIsWord(q: Qry, i: nat, style: Style, lx: Lexicon)
    requires q.Node? && Printable(q, style, lx) && i < |q.args|
    ensures var w := WeightText(q, i, style);
            w == "" || (style.Feedback? && q.op.WSUM? && |q.weights| == |q.args|
                        && CleanWeight(q.weights[i], style.show, lx) && w == style.show(q.weights[i]) + " "
                        && !IsSpace(w[0]))
    ensures NoBrackets(WeightText(q, i, style))
  {
  }

  // ----- Balance

  lemma ScanOpen(s: string, depth: nat)
    ensures Scan("(" + s, depth) == Shift(Scan(s, depth + 1), 1)
  {
    assert ("(" + s)[1..] == s;
  }

  lemma ScanClose(s: string, depth: nat)
    ensures Scan(")" + s, depth + 1) == if depth == 0 then Ok(0) else Shift(Scan(s, depth), 1)
  {
    assert (")" + s)[1..] == s;
  }

  /** A bracketed text whose inside is balanced. */
  lemma ScanNode(name: string, lead: string, body: string, trail: string, after: string, depth: nat)
    requires NoBrackets(name) && NoBrackets(lead) && NoBrackets(trail)
    requires Scan(body + (trail + (")" + after)), depth + 1) == Shift(Scan(trail + (")" + after), depth + 1), |body|)
    ensures var t := name + "(" + lead + body + trail + ")";
            && (depth > 0 ==> Scan(t + after, depth) == Shift(Scan(after, depth), |t|))
            && (depth == 0 ==> Scan(t + after, depth) == Ok(|t| - 1))
  {
    hide Scan;
    var end := ")" + after;
    var inside := body + (trail + end);
    var r1 := lead + inside;
    Reassociate(name, lead, body, trail, after);
    ScanPlain(name, "(" + r1, depth);
    ScanOpen(r1, depth);
    ScanPlain(lead, inside, depth + 1);
    ScanPlain(trail, end, depth + 1);
    ScanClose(after, depth);
  }

  lemma Reassociate(name: string, lead: string, body: string, trail: string, after: string)
    ensures (name + "(" + lead + body + trail + ")") + after == name + ("(" + (lead + (body + (trail + (")" + after)))))
  {
  }

  /** Balanced text after plain text, and before text that is itself scanned. */
  lemma ScanItem(w: string, a: string, r: string, after: string, depth: nat)
    requires NoBrackets(w)
    requires Scan(a + (r + after), depth) == Shift(Scan(r + after, depth), |a|)
    requires Scan(r + after, depth) == Shift(Scan(after, depth), |r|)
    ensures Scan((w + a + r) + after, depth) == Shift(Scan(after, depth), |w + a + r|)
  {
    hide Scan, Shift;
    ThreeParts(w, a, r, after);
    ScanPlain(w, a + (r + after), depth);
    ShiftThrice(Scan(after, depth), |r|, |a|, |w|);
  }

  lemma ThreeParts(w: string, a: string, r: string, after: string)
    ensures (w + a + r) + after == w + (a + (r + after)) && |w + a + r| == |r| + |a| + |w|
  {
  }

  lemma ShiftThrice(x: Result<int>, i: nat, j: nat, k: nat)
    ensures Shift(Shift(Shift(x, i), j), k) == Shift(x, i + j + k)
  {
  }

  lemma TermRender(q: Qry, style: Style, lx: Lexicon)
    requires q.Term? && Printable(q, style, lx)
    ensures NoBrackets(Render(q, style))
  {
    TermText(q, lx);
  }

  /** Inside parentheses, printed text leaves the scan at the depth it found. */
  lemma {:induction false} ScanRender(q: Qry, style: Style, lx: Lexicon, after: string, depth: nat)
    requires Printable(q, style, lx)
    requires depth > 0 || q.Node?
    ensures depth > 0 ==> Scan(Render(q, style) + after, depth) == Shift(Scan(after, depth), |Render(q, style)|)
    ensures depth == 0 ==> Scan(Render(q, style) + after, depth) == Ok(|Render(q, style)| - 1)
    decreases q, 1, 0
  {
    hide Scan, Joined, Lead, Trail, IsSpace, Printable, Render, Shift;
    if q.Term? {
      TermRender(q, style, lx);
      ScanPlain(Render(q, style), after, depth);
    } else {
      NodeText(q, style, lx);
      ScanJoined(q, 0, style, lx, Trail(q) + (")" + after), depth + 1);
      ScanNode(q.name, Lead(q, style), Joined(q, 0, style), Trail(q), after, depth);
    }
  }

  lemma NodeText(q: Qry, style: Style, lx: Lexicon)
    requires q.Node? && Printable(q, style, lx)
    ensures NoBrackets(q.name) && NoBrackets(Lead(q, style)) && NoBrackets(Trail(q))
    ensures Render(q, style) == q.name + "(" + Lead(q, style) + Joined(q, 0, style) + Trail(q) + ")"
  {
  }

  lemma ScanSpaced(j: string, after: string, depth: nat)
    requires Scan(j + after, depth) == Shift(Scan(after, depth), |j|)
    ensures Scan((" " + j) + after, depth) == Shift(Scan(after, depth), |" " + j|)
  {
    assert (" " + j) + after == " " + (j + after);
    ScanPlain(" ", j + after, depth);
  }

  lemma {:induction false} ScanJoined(q: Qry, i: nat, style: Style, lx: Lexicon, after: string, depth: nat)
    requires q.Node? && Printable(q, style, lx) && i <= |q.args| && depth > 0
    ensures Scan(Joined(q, i, style) + after, depth) == Shift(Scan(after, depth), |Joined(q, i, style)|)
    decreases q, 0, |q.args| - i, 0
  {
    hide Scan, Joined, Rest, Render, Printable, Printed, WeightText, CleanWeight, IsSpace, Shift;
    if i == |q.args| {
      NothingJoined(q, style);
      ScanPlain("", after, depth);
    } else {
      JoinedParts(q, i, style);
      PrintedPrintable(q, i, style, lx);
      WeightIsWord(q, i, style, lx);
      ScanRender(Printed(q, i, style), style, lx, Rest(q, i + 1, style) + after, depth);
      ScanRest(q, i + 1, style, lx, after, depth);
      ScanItem(WeightText(q, i, style), Render(Printed(q, i, style), style), Rest(q, i + 1, style), after, depth);
    }
  }

  lemma {:induction false} ScanRest(q: Qry, i: nat, style: Style, lx: Lexicon, after: string, depth: nat)
    requires q.Node? && Printable(q, style, lx) && i <= |q.args| && depth > 0
    ensures Scan(Rest(q, i, style) + after, depth) == Shift(Scan(after, depth), |Rest(q, i, style)|)
    decreases q, 0, |q.args| - i, 1
  {
    hide Scan, Joined, Printable, IsSpace;
    if i == |q.args| {
      assert Rest(q, i, style) + after == after;
    } else {
      ScanJoined(q, i, style, lx, after, depth);
      ScanSpaced(Joined(q, i, style), after, depth);
    }
  }

  lemma {:induction false} CountRender(q: Qry, style: Style, lx: Lexicon)
    requires Printable(q, style, lx)
    ensures Count(Render(q, style), '(') == Count(Render(q, style), ')')
    ensures q.Node? ==> Count(Render(q, style), '(') > 0
    decreases q, 1, 0
  {
    if q.Term? {
      TermText(q, lx);
      CountNone(Render(q, style), '(');
      CountNone(Render(q, style), ')');
    } else {
      var lead, body, trail := Lead(q, style), Joined(q, 0, style), Trail(q);
      CountJoined(q, 0, style, lx);
      CountParts(q.name, lead, body, trail, '(');
      CountParts(q.name, lead, body, trail, ')');
      CountNone(q.name, '(');
      CountNone(q.name, ')');
      CountNone(lead, '(');
      CountNone(lead, ')');
      CountNone(trail, '(');
      CountNone(trail, ')');
    }
  }

  lemma CountParts(name: string, lead: string, body: string, trail: string, c: char)
    ensures Count(name + "(" + lead + body + trail + ")", c) ==
            Count(name, c) + Count("(", c) + Count(lead, c) + Count(body, c) + Count(trail, c) + Count(")", c)
  {
    CountAppend(name + "(" + lead + body + trail, ")", c);
    CountAppend(name + "(" + lead + body, trail, c);
    CountAppend(name + "(" + lead, body, c);
    CountAppend(name + "(", lead, c);
    CountAppend(name, "(", c);
  }

  lemma {:induction false} CountJoined(q: Qry, i: nat, style: Style, lx: Lexicon)
    requires q.Node? && Printable(q, style, lx) && i <= |q.args|
    ensures Count(Joined(q, i, style), '(') == Count(Joined(q, i, style), ')')
    decreases q, 0, |q.args| - i, 0
  {
    hide Count, Joined, Rest, Render, Printable, Printed, WeightText, CleanWeight, IsSpace;
    if i == |q.args| {
      NothingJoined(q, style);
      CountNone("", '(');
      CountNone("", ')');
    } else {
      var w, a, r := WeightText(q, i, style), Render(Printed(q, i, style), style), Rest(q, i + 1, style);
      JoinedParts(q, i, style);
      PrintedPrintable(q, i, style, lx);
      WeightIsWord(q, i, style, lx);
      CountRender(Printed(q, i, style), style, lx);
      CountRest(q, i + 1, style, lx);
      CountEven(w, a, r);
    }
  }

  lemma CountEven(w: string, a: string, r: string)
    requires NoBrackets(w) && Count(a, '(') == Count(a, ')') && Count(r, '(') == Count(r, ')')
    ensures Count(w + a + r, '(') == Count(w + a + r, ')')
  {
    hide Count;
    CountItem(w, a, r, '(');
    CountItem(w, a, r, ')');
    CountNone(w, '(');
    CountNone(w, ')');
  }

  lemma CountItem(w: string, a: string, r: string, c: char)
    ensures Count(w + a + r, c) == Count(w, c) + Count(a, c) + Count(r, c)
  {
    CountAppend(w + a, r, c);
    CountAppend(w, a, c);
  }

  lemma {:induction false} CountRest(q: Qry, i: nat, style: Style, lx: Lexicon)
    requires q.Node? && Printable(q, style, lx) && i <= |q.args|
    ensures Count(Rest(q, i, style), '(') == Count(Rest(q, i, style), ')')
    decreases q, 0, |q.args| - i, 1
  {
    if i < |q.args| {
      CountJoined(q, i, style, lx);
      CountAppend(" ", Joined(q, i, style), '(');
      CountAppend(" ", Joined(q, i, style), ')');
    }
  }
}
