/** The query parser: text to query trees, one argument at a time. */
module QryParser {
  import opened Wrappers
  import opened QueryTree
  import opened Text

  /** The Lucene analyzer and Python's float(), which the parser calls. */
  datatype Lexicon = Lexicon(tokenize: string -> seq<string>, parseFloat: string -> Option<real>)

  const KNOWN_FIELDS: set<string> := {"body", "title", "url", "keywords", "inlink"}

  // ----- Operators and terms

  /** The text up to the first `c`, or all of it. */
  function Before(s: string, c: char): string {
    if c in s then s[..FirstIndex(s, c)] else s
  }

  /** The operator a name stands for.  Only the part between the first two slashes is the distance. */
  function OpOf(name: string): Option<Op> {
    LowerCaseOp(ToLower(name))
  }

  function LowerCaseOp(lower: string): Option<Op> {
    if '/' in lower then
      var k := FirstIndex(lower, '/');
      match ParseInt(Before(lower[k + 1..], '/'))
      case None => None
      case Some(n) =>
        if lower[..k] == "#near" then Some(NEAR(n))
        else if lower[..k] == "#window" then Some(WINDOW(n))
        else None
    else if lower == "#or" then Some(OR)
    else if lower == "#and" then Some(AND)
    else if lower == "#syn" then Some(SYN)
    else if lower == "#score" then Some(SCORE)
    else if lower == "#sum" then Some(SUM)
    else if lower == "#wsum" then Some(WSUM)
    else None
  }

  /** __createOperator: the display name is the upper-cased name. */
  function CreateOperator(name: string): (r: Result<Qry>)
    ensures r.Ok? ==> r.value.Node?
  {
    match OpOf(name)
    case None => Raised("Unknown query operator")
    case Some(op) => Ok(Node(op, ToUpper(name), [], []))
  }

  /** Split a token into its term and a known field; the field defaults to body. */
  function TermAndField(token: string): (string, string) {
    if '.' !in token then (token, "body")
    else
      var k := LastIndex(token, '.');
      var field := ToLower(token[k + 1..]);
      if k > 0 && field in KNOWN_FIELDS then (token[..k], field) else (token, "body")
  }

  function Terms(tokens: seq<string>, field: string): (r: seq<Qry>)
    ensures |r| == |tokens| && forall i :: 0 <= i < |r| ==> r[i] == Term(tokens[i], field)
  {
    seq(|tokens|, i requires 0 <= i < |tokens| => Term(tokens[i], field))
  }

  function CreateTerms(token: string, lx: Lexicon): seq<Qry> {
    Terms(lx.tokenize(TermAndField(token).0), TermAndField(token).1)
  }

  // ----- Building the tree

  function Scored(q: Qry): Qry {
    Node(SCORE, "#SCORE", [q], [])
  }

  /** appendArg: type checks, implied SCORE operators, fields and weights. */
  function AppendArg(tree: Qry, arg: Qry, weight: real): Result<Qry>
    requires tree.Node?
  {
    if tree.op.SCORE? then
      if tree.args != [] then Raised("Score operators can have only one argument")
      else if !arg.IsIop() then Raised("The argument to a SCORE operator must be of type QryIop.")
      else Ok(tree.(args := tree.args + [arg]))
    else if !tree.IsIop() then
      Ok(tree.(args := tree.args + [if arg.IsIop() then Scored(arg) else arg],
               weights := if tree.op.WSUM? then tree.weights + [weight] else tree.weights))
    else if !arg.IsIop() then Raised("A score operator cannot be an argument to an inverted-list operator")
    else if tree.args != [] && FieldOf(tree) != FieldOf(arg) then
      Raised("Arguments to QryIop operators must be in the same field.")
    else Ok(tree.(args := tree.args + [arg]))
  }

  function AppendAll(tree: Qry, args: seq<Qry>, weight: real): (r: Result<Qry>)
    requires tree.Node?
    ensures r.Ok? ==> r.value.Node?
    decreases |args|
  {
    if args == [] then Ok(tree)
    else
      match AppendArg(tree, args[0], weight)
      case Raised(e) => Raised(e)
      case Ok(t) => AppendAll(t, args[1..], weight)
  }

  // ----- Parsing

  /** __popSubquery: up to the balancing parenthesis, or everything when there is none. */
  function PopSubquery(s: string): (r: Result<(string, string)>)
    requires s != []
    ensures r.Ok? ==> |r.value.0| <= |s| && |r.value.1| < |s|
  {
    ScanRange(s, 0);
    match Scan(s, 0)
    case Raised(e) => Raised(e)
    case Ok(i) => Ok(if i < 0 then (s, "") else (s[..i + 1], s[i + 1..]))
  }

  /** The parenthesis checks that come before parsing. */
  predicate WellBracketed(t: string) {
    Count(t, '(') != 0 && Count(t, '(') == Count(t, ')') && Scan(t, 0) == Ok(|t| - 1)
  }

  lemma BracketsDelimit(t: string)
    requires WellBracketed(t)
    ensures '(' in t && t[|t| - 1] == ')' && FirstIndex(t, '(') < |t| - 1
  {
    CountSome(t, '(');
    ScanRange(t, 0);
  }

  /** The operator name and the argument text of a query string; None when its parentheses are wrong. */
  function SplitQuery(s: string): (r: Option<(string, string)>)
    ensures r.Some? ==> |r.value.1| < |s|
  {
    var t := Strip(s);
    if !WellBracketed(t) then None
    else
      BracketsDelimit(t);
      var k := FirstIndex(t, '(');
      var rest := t[k + 1..];
      assert rest[|rest| - 1] == ')';
      Some((Strip(t[..k]), Strip(rest[..LastIndex(rest, ')')])))
  }

  /** One argument of `tree`: the nodes it stands for, its weight, and the text that follows. */
  datatype Popped = Popped(args: seq<Qry>, weight: real, rest: string)

  /** The weight in front of an argument of WSUM, and the text that follows it. */
  function PopWeight(tree: Qry, s: string, lx: Lexicon): (r: Result<(real, string)>)
    requires tree.Node?
    ensures r.Ok? ==> |r.value.1| <= |s|
  {
    if !tree.op.WSUM? then Ok((1.0, s))
    else
      match PopTerm(s)
      case None => Raised("list index out of range")
      case Some(p) =>
        match lx.parseFloat(p.0)
        case None => Raised("Expected numeric weight for #wsum")
        case Some(w) => Ok((w, p.1))
  }

  function PopArg(tree: Qry, s: string, lx: Lexicon): (r: Result<Popped>)
    requires tree.Node? && s != []
    ensures r.Ok? ==> |r.value.rest| < |s|
    decreases |s|, 1
  {
    match PopWeight(tree, s, lx)
    case Raised(e) => Raised(e)
    case Ok((weight, t)) =>
      if t != [] && t[0] == '#' then
        match PopSubquery(t)
        case Raised(e) => Raised(e)
        case Ok((sub, rest)) =>
          match Parse(sub, lx)
          case Raised(e) => Raised(e)
          case Ok(q) => Ok(Popped([q], weight, Strip(rest)))
      else
        match PopTerm(t)
        case None => Raised("list index out of range")
        case Some((token, rest)) => Ok(Popped(CreateTerms(token, lx), weight, Strip(rest)))
  }

  function ParseArgs(tree: Qry, s: string, lx: Lexicon): (r: Result<Qry>)
    requires tree.Node?
    ensures r.Ok? ==> r.value.Node?
    decreases |s|, 2
  {
    if s == [] then Ok(tree)
    else
      match PopArg(tree, s, lx)
      case Raised(e) => Raised(e)
      case Ok(p) =>
        match AppendAll(tree, p.args, p.weight)
        case Raised(e) => Raised(e)
        case Ok(t) => ParseArgs(t, p.rest, lx)
  }

  /** The tree a query string stands for. */
  function Parse(s: string, lx: Lexicon): (r: Result<Qry>)
    ensures r.Ok? ==> r.value.Node?
    decreases |s|, 0
  {
    match SplitQuery(s)
    case None => Raised("Missing, unbalanced, or misplaced parentheses")
    case Some((name, body)) =>
      match CreateOperator(name)
      case Raised(e) => Raised(e)
      case Ok(tree) => ParseArgs(tree, body, lx)
  }

  lemma {:induction false} AppendAllKeepsOp(tree: Qry, args: seq<Qry>, weight: real)
    requires tree.Node?
    ensures AppendAll(tree, args, weight).Ok? ==> AppendAll(tree, args, weight).value.op == tree.op
    decreases |args|
  {
    if args != [] && AppendArg(tree, args[0], weight).Ok? {
      AppendAllKeepsOp(AppendArg(tree, args[0], weight).value, args[1..], weight);
    }
  }

  lemma {:induction false} ParseArgsKeepsOp(tree: Qry, s: string, lx: Lexicon)
    requires tree.Node?
    ensures ParseArgs(tree, s, lx).Ok? ==> ParseArgs(tree, s, lx).value.op == tree.op
    decreases |s|
  {
    hide PopArg, AppendAll;
    if s != [] && PopArg(tree, s, lx).Ok? {
      var p := PopArg(tree, s, lx).value;
      AppendAllKeepsOp(tree, p.args, p.weight);
      if AppendAll(tree, p.args, p.weight).Ok? {
        ParseArgsKeepsOp(AppendAll(tree, p.args, p.weight).value, p.rest, lx);
      }
    }
  }

  /** The arguments a token or subquery stands for join the tree one by one. */
  method AppendArgs(tree: Qry, args: seq<Qry>, weight: real) returns (r: Result<Qry>)
    requires tree.Node?
    ensures r == AppendAll(tree, args, weight)
  {
    var t := tree;
    for i := 0 to |args|
      invariant t.Node? && AppendAll(tree, args, weight) == AppendAll(t, args[i..], weight)
    {
      assert args[i..][1..] == args[i + 1..];
      var appended := AppendArg(t, args[i], weight);
      if appended.Raised? {
        return appended;
      }
      t := appended.value;
    }
    return Ok(t);
  }

  /** One pass of the parser's loop: pop a weight if there is one, then a subquery or a term. */
  method TakeArg(tree: Qry, queryString: string, lx: Lexicon) returns (r: Result<Popped>)
    requires tree.Node? && queryString != []
    ensures r == PopArg(tree, queryString, lx)
    decreases |queryString|, 1
  {
    hide Scan, Strip, CreateTerms, SplitQuery;
    var weighted := PopWeight(tree, queryString, lx);
    if weighted.Raised? {
      return Raised(weighted.reason);
    }
    var (weight, text) := weighted.value;
    if text != [] && text[0] == '#' {
      var popped := PopSubquery(text);
      if popped.Raised? {
        return Raised(popped.reason);
      }
      var sub := ParseString(popped.value.0, lx);
      if sub.Raised? {
        return Raised(sub.reason);
      }
      return Ok(Popped([sub.value], weight, Strip(popped.value.1)));
    }
    var popped := PopTerm(text);
    if popped.None? {
      return Raised("list index out of range");
    }
    return Ok(Popped(CreateTerms(popped.value.0, lx), weight, Strip(popped.value.1)));
  }

  /** parseString: the loop that consumes the argument text from the left. */
  method ParseString(s: string, lx: Lexicon) returns (r: Result<Qry>)
    ensures r == Parse(s, lx)
    decreases |s|, 0
  {
    hide SplitQuery, CreateOperator, PopArg, AppendAll;
    var parts := SplitQuery(s);
    if parts.None? {
      return Raised("Missing, unbalanced, or misplaced parentheses");
    }
    var (name, queryString) := parts.value;
    var operator := CreateOperator(name);
    if operator.Raised? {
      return Raised(operator.reason);
    }
    OperatorIsNode(name);
    var tree := operator.value;
    while queryString != []
      invariant tree.Node? && |queryString| < |s|
      invariant ParseArgs(tree, queryString, lx) == Parse(s, lx)
      decreases |queryString|
    {
      var popped := TakeArg(tree, queryString, lx);
      if popped.Raised? {
        return Raised(popped.reason);
      }
      var appended := AppendArgs(tree, popped.value.args, popped.value.weight);
      if appended.Raised? {
        return Raised(appended.reason);
      }
      tree, queryString := appended.value, popped.value.rest;
    }
    return Ok(tree);
  }

  lemma OperatorIsNode(name: string)
    ensures CreateOperator(name).Ok? ==> CreateOperator(name).value.Node? && WellTyped(CreateOperator(name).value)
  {
  }

  // ----- Types

  lemma TypedParts(q: Qry)
    ensures WellTyped(q) <==> WellTypedNode(q) && forall i :: 0 <= i < |q.Args()| ==> WellTyped(q.Args()[i])
  {
  }

  /** The node itself stays well-typed, as far as it looks at kinds and fields. */
  lemma AppendKeepsNode(tree: Qry, arg: Qry, weight: real)
    requires tree.Node? && WellTypedNode(tree) && AppendArg(tree, arg, weight).Ok?
    ensures WellTypedNode(AppendArg(tree, arg, weight).value)
  {
  }

  /** An argument the parser accepts keeps the tree well-typed. */
  lemma AppendKeepsTypes(tree: Qry, arg: Qry, weight: real)
    requires tree.Node? && WellTyped(tree) && WellTyped(arg) && AppendArg(tree, arg, weight).Ok?
    ensures WellTyped(AppendArg(tree, arg, weight).value)
  {
    hide WellTyped, WellTypedNode;
    var r := AppendArg(tree, arg, weight).value;
    TypedParts(tree);
    TypedParts(r);
    AppendKeepsNode(tree, arg, weight);
    if arg.IsIop() {
      ScoredTyped(arg);
    }
    forall i | 0 <= i < |r.args| ensures WellTyped(r.Args()[i]) {
      if i < |tree.args| {
        assert r.args[i] == tree.Args()[i];
      }
    }
  }

  /** The tree with one argument more: below SCORE if it is a list and the tree scores queries. */
  function WithArg(tree: Qry, arg: Qry, weight: real): Qry
    requires tree.Node?
  {
    tree.(args := tree.args + [if tree.IsIop() || tree.op.SCORE? || !arg.IsIop() then arg else Scored(arg)],
          weights := if tree.op.WSUM? then tree.weights + [weight] else tree.weights)
  }

  /** An argument is accepted exactly when the tree is well-typed with it, and the tree then has it. */
  lemma AppendExactly(tree: Qry, arg: Qry, weight: real)
    requires tree.Node? && WellTyped(tree) && WellTyped(arg)
    ensures AppendArg(tree, arg, weight).Ok? <==> WellTyped(WithArg(tree, arg, weight))
    ensures AppendArg(tree, arg, weight).Ok? ==> AppendArg(tree, arg, weight) == Ok(WithArg(tree, arg, weight))
  {
    hide WellTyped;
    TypedParts(tree);
    TypedParts(WithArg(tree, arg, weight));
    if AppendArg(tree, arg, weight).Ok? {
      AppendKeepsTypes(tree, arg, weight);
    } else {
      RejectedIsMistyped(tree, arg, weight);
    }
  }

  lemma RejectedIsMistyped(tree: Qry, arg: Qry, weight: real)
    requires tree.Node? && WellTypedNode(tree) && AppendArg(tree, arg, weight).Raised?
    ensures !WellTypedNode(WithArg(tree, arg, weight))
  {
    hide FieldOf;
    var r := WithArg(tree, arg, weight);
    var last := |tree.args|;
    if tree.op.SCORE? {
      assert r.args[last] == arg;
    } else if last > 0 {
      FirstField(tree);
      assert r.args[last] == arg && r.args[0] == tree.args[0];
    } else {
      assert r.args[0] == arg;
    }
  }

  lemma FirstField(tree: Qry)
    requires tree.Node? && tree.args != []
    ensures FieldOf(tree) == FieldOf(tree.args[0])
  {
  }

  lemma ScoredTyped(q: Qry)
    requires WellTyped(q) && q.IsIop()
    ensures WellTyped(Scored(q))
  {
    assert Scored(q).Args()[0] == q;
  }

  lemma {:induction false} AppendAllKeepsTypes(tree: Qry, args: seq<Qry>, weight: real)
    requires tree.Node? && WellTyped(tree) && forall i :: 0 <= i < |args| ==> WellTyped(args[i])
    ensures AppendAll(tree, args, weight).Ok? ==> WellTyped(AppendAll(tree, args, weight).value)
    decreases |args|
  {
    if args != [] && AppendArg(tree, args[0], weight).Ok? {
      AppendKeepsTypes(tree, args[0], weight);
      AppendAllKeepsTypes(AppendArg(tree, args[0], weight).value, args[1..], weight);
    }
  }

  lemma {:induction false} ParseArgsWellTyped(tree: Qry, s: string, lx: Lexicon)
    requires tree.Node? && WellTyped(tree)
    ensures ParseArgs(tree, s, lx).Ok? ==> WellTyped(ParseArgs(tree, s, lx).value)
    decreases |s|, 2
  {
    if s != [] && PopArg(tree, s, lx).Ok? {
      var p := PopArg(tree, s, lx).value;
      PoppedWellTyped(tree, s, lx);
      AppendAllKeepsTypes(tree, p.args, p.weight);
      if AppendAll(tree, p.args, p.weight).Ok? {
        ParseArgsWellTyped(AppendAll(tree, p.args, p.weight).value, p.rest, lx);
      }
    }
  }

  lemma {:induction false} PoppedWellTyped(tree: Qry, s: string, lx: Lexicon)
    requires tree.Node? && s != [] && PopArg(tree, s, lx).Ok?
    ensures var args := PopArg(tree, s, lx).value.args; forall i :: 0 <= i < |args| ==> WellTyped(args[i])
    decreases |s|, 1
  {
    hide Parse, PopTerm, PopSubquery, PopWeight, WellTyped, CreateTerms, Strip;
    var t := PopWeight(tree, s, lx).value.1;
    if t != [] && t[0] == '#' {
      ParseIsWellTyped(PopSubquery(t).value.0, lx);
    } else {
      TermsTyped(PopTerm(t).value.0, lx);
    }
  }

  lemma TermsTyped(token: string, lx: Lexicon)
    ensures forall i :: 0 <= i < |CreateTerms(token, lx)| ==> WellTyped(CreateTerms(token, lx)[i])
  {
  }

  /** Whatever the parser accepts is a well-typed tree. */
  lemma {:induction false} ParseIsWellTyped(s: string, lx: Lexicon)
    ensures Parse(s, lx).Ok? ==> WellTyped(Parse(s, lx).value) && Parse(s, lx).value.Node?
    decreases |s|, 0
  {
    hide SplitQuery, CreateOperator, WellTyped;
    if SplitQuery(s).Some? {
      var (name, body) := SplitQuery(s).value;
      OperatorIsNode(name);
      if CreateOperator(name).Ok? {
        ParseArgsWellTyped(CreateOperator(name).value, body, lx);
      }
    }
  }
}
