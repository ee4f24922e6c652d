/** What the names in a query text stand for: operators with their distances, and the fields of terms. */
module OperatorNames {
  import opened Wrappers
  import opened Numerals
  import opened QueryTree
  import opened Text
  import opened QryParser

  // ----- Numbers, as a user may write them

  predicate IsDigits(s: string) {
    forall i :: 0 <= i < |s| ==> '0' <= s[i] <= '9' || s[i] == '_'
  }

  /** Digits, with single underscores between them. */
  predicate Grouped(s: string) {
    && IsDigits(s) && s != "" && s[0] != '_' && s[|s| - 1] != '_'
    && forall i :: 0 < i < |s| ==> s[i - 1] != '_' || s[i] != '_'
  }

  function Digits(s: string): string {
    if s == "" then "" else (if s[0] == '_' then "" else [s[0]]) + Digits(s[1..])
  }

  /** What may follow, after a digit or before the first one. */
  predicate Rest(s: string, afterDigit: bool) {
    && IsDigits(s) && (s == "" ==> afterDigit) && (s != "" ==> s[|s| - 1] != '_' && (s[0] == '_' ==> afterDigit))
    && forall i :: 0 < i < |s| ==> s[i - 1] != '_' || s[i] != '_'
  }

  lemma RestStep(s: string, afterDigit: bool)
    requires s != ""
    ensures Rest(s, afterDigit) <==>
              if IsDigit(s[0]) then Rest(s[1..], true) else s[0] == '_' && afterDigit && Rest(s[1..], false)
  {
    var t := s[1..];
    assert forall i :: 0 <= i < |t| ==> t[i] == s[i + 1];
    assert forall i :: 0 < i < |s| ==> s[i] == t[i - 1];
    if Rest(s, afterDigit) {
      assert forall i :: 0 < i < |t| ==> (s[i] != '_' || s[i + 1] != '_');
    }
  }

  lemma {:induction false} DigitsRead(read: string, s: string, afterDigit: bool, n: nat)
    requires Value(read) >= 0
    ensures ParseDigits(s, Value(read), afterDigit) == Some(n)
            <==> Rest(s, afterDigit) && n == Value(read + Digits(s))
    decreases |s|
  {
    hide Rest, IsDigits, Value, Digits, ParseDigits;
    ParseStep(s, Value(read), afterDigit);
    if s == "" {
      NoDigits(afterDigit);
      assert read + "" == read;
    } else {
      RestStep(s, afterDigit);
      NextDigit(read, s);
      if IsDigit(s[0]) {
        DigitsRead(read + [s[0]], s[1..], true, n);
      } else if s[0] == '_' {
        DigitsRead(read, s[1..], false, n);
      }
    }
  }

  lemma ParseStep(s: string, acc: nat, afterDigit: bool)
    ensures ParseDigits(s, acc, afterDigit) ==
            if s == "" then (if afterDigit then Some(acc) else None)
            else if IsDigit(s[0]) then ParseDigits(s[1..], acc * 10 + (s[0] as int - '0' as int), true)
            else if s[0] == '_' && afterDigit then ParseDigits(s[1..], acc, false)
            else None
  {
  }

  lemma NoDigits(afterDigit: bool)
    ensures Digits("") == "" && (Rest("", afterDigit) <==> afterDigit)
  {
  }

  lemma NextDigit(read: string, s: string)
    requires s != ""
    ensures Value(read + [s[0]]) == Value(read) * 10 + (s[0] as int - '0' as int)
    ensures s[0] == '_' ==> Digits(s) == Digits(s[1..])
    ensures s[0] != '_' ==> read + [s[0]] + Digits(s[1..]) == read + Digits(s)
  {
    hide Value, Digits;
    NextValue(read, s[0]);
    FirstDigit(s);
    Reassociate(read, [s[0]], Digits(s[1..]));
  }

  lemma Reassociate(a: string, b: string, c: string)
    ensures a + b + c == a + (b + c)
  {
  }

  lemma NextValue(read: string, c: char)
    ensures Value(read + [c]) == Value(read) * 10 + (c as int - '0' as int)
  {
    var next := read + [c];
    assert next != "" && next[..|next| - 1] == read && next[|next| - 1] == c;
    assert Value(next) == 10 * Value(next[..|next| - 1]) + (next[|next| - 1] as int - '0' as int);
  }

  lemma FirstDigit(s: string)
    requires s != ""
    ensures Digits(s) == (if s[0] == '_' then "" else [s[0]]) + Digits(s[1..])
    ensures "" + Digits(s[1..]) == Digits(s[1..])
  {
  }

  /** White space around, one sign, and grouped digits: the text stands for the number. */
  ghost predicate Stands(s: string, n: int) {
    exists left, sign, digits, right :: Spells(s, left, sign, digits, right, n)
  }

  ghost predicate Spells(s: string, left: string, sign: string, digits: string, right: string, n: int) {
    && s == left + (sign + digits) + right && Blank(left) && Blank(right)
    && (sign == "" || sign == "+" || sign == "-") && Grouped(digits)
    && n == if sign == "-" then -Value(Digits(digits)) else Value(Digits(digits))
  }

  lemma {:induction false} DigitsNotNegative(s: string)
    requires IsDigits(s)
    ensures Value(Digits(s)) >= 0 && IsDigits(Digits(s)) && '_' !in Digits(s)
  {
    if s != "" {
      DigitsNotNegative(s[1..]);
    }
    PlainNotNegative(Digits(s));
  }

  lemma {:induction false} PlainNotNegative(s: string)
    requires IsDigits(s) && '_' !in s
    ensures Value(s) >= 0
  {
    if s != "" {
      PlainNotNegative(s[..|s| - 1]);
    }
  }

  lemma GroupsRead(digits: string, n: nat)
    ensures ParseDigits(digits, 0, false) == Some(n) <==> Grouped(digits) && n == Value(Digits(digits))
  {
    DigitsRead("", digits, false, n);
    assert "" + Digits(digits) == Digits(digits);
  }

  lemma SignedIsTrimmed(sign: string, digits: string)
    requires (sign == "" || sign == "+" || sign == "-") && Grouped(digits)
    ensures Trimmed(sign + digits) && (sign == "" ==> digits[0] != '-' && digits[0] != '+')
  {
    var t := sign + digits;
    assert t[|t| - 1] == digits[|digits| - 1];
    assert t[0] == if sign == "" then digits[0] else sign[0];
  }

  /** int() accepts exactly the texts that stand for a number, and gives that number. */
  lemma ParseIntExactly(s: string, n: int)
    ensures ParseInt(s) == Some(n) <==> Stands(s, n)
  {
    if Stands(s, n) {
      var left, sign, digits, right :| Spells(s, left, sign, digits, right, n);
      StandingIsRead(s, left, sign, digits, right, n);
    }
    if ParseInt(s) == Some(n) {
      ReadStands(s, n);
    }
  }

  lemma StandingIsRead(s: string, left: string, sign: string, digits: string, right: string, n: int)
    requires Spells(s, left, sign, digits, right, n)
    ensures ParseInt(s) == Some(n)
  {
    hide ParseDigits, Grouped, Value, Digits, Trimmed, Strip;
    var t := sign + digits;
    SignedIsTrimmed(sign, digits);
    StripOf(left, t, right);
    GroupedNotNegative(digits);
    SignedParts(sign, digits);
    GroupsRead(digits, Value(Digits(digits)));
    assert Strip(s) == t && t != "";
  }

  lemma SignedParts(sign: string, digits: string)
    requires (sign == "" || sign == "+" || sign == "-") && digits != ""
    ensures sign == "" ==> sign + digits == digits
    ensures sign != "" ==> (sign + digits)[0] == sign[0] && (sign + digits)[1..] == digits
  {
  }

  lemma GroupedNotNegative(digits: string)
    requires Grouped(digits)
    ensures digits != "" && Value(Digits(digits)) >= 0
  {
    DigitsNotNegative(digits);
  }

  lemma ReadStands(s: string, n: int)
    requires ParseInt(s) == Some(n)
    ensures Stands(s, n)
  {
    hide ParseDigits, Grouped, Value, Digits, Strip;
    var left, right := StripSplits(s);
    var t := Strip(s);
    var sign := if t[0] == '-' then "-" else if t[0] == '+' then "+" else "";
    var digits := if sign == "" then t else t[1..];
    assert t == sign + digits;
    var value := ParseDigits(digits, 0, false).value;
    GroupsRead(digits, value);
    assert Spells(s, left, sign, digits, right, n);
  }

  /** In particular decimal digits, with or without a sign. */
  lemma DecimalStands(n: nat)
    ensures Stands(Decimal(n), n) && Stands("-" + Decimal(n), 0 - n)
  {
    hide Value, Decimal, Digits, Stands, Grouped;
    var d := Decimal(n);
    DecimalValue(n);
    DecimalGrouped(n);
    Unpadded("", d, n);
    Unpadded("-", d, 0 - n);
    assert "" + d == d;
  }

  lemma DecimalGrouped(n: nat)
    ensures Grouped(Decimal(n)) && Digits(Decimal(n)) == Decimal(n)
  {
    DecimalDigits(n);
    DigitsOfDigits(Decimal(n));
    hide Decimal;
  }

  lemma Unpadded(sign: string, digits: string, n: int)
    requires (sign == "" || sign == "+" || sign == "-") && Grouped(digits)
    requires n == if sign == "-" then -Value(Digits(digits)) else Value(Digits(digits))
    ensures Stands(sign + digits, n)
  {
    hide Value, Digits, Grouped;
    assert "" + (sign + digits) + "" == sign + digits;
    assert Spells(sign + digits, "", sign, digits, "", n);
  }

  lemma {:induction false} DigitsOfDigits(s: string)
    requires '_' !in s
    ensures Digits(s) == s
  {
    if s != "" {
      DigitsOfDigits(s[1..]);
    }
  }

  // ----- Operators

  /** The name spells the lower-case text in any letter case. */
  predicate Spelled(name: string, lower: string) {
    && |name| == |lower|
    && forall i :: 0 <= i < |name| ==>
         name[i] == lower[i] || ('a' <= lower[i] <= 'z' && name[i] as int + 32 == lower[i] as int)
  }

  /** A name with a slash: an operator name, a number, and what a further slash starts. */
  ghost predicate Distanced(name: string, lower: string, n: int) {
    exists head, number, tail :: Slashed(name, head, number, tail) && Spelled(head, lower) && Stands(number, n)
  }

  predicate Slashed(name: string, head: string, number: string, tail: string) {
    name == head + "/" + number + tail && '/' !in number && (tail == "" || tail[0] == '/')
  }

  /** The operators' names. */
  ghost predicate Names(name: string, op: Op) {
    match op
    case NEAR(n) => Distanced(name, "#near", n)
    case WINDOW(n) => Distanced(name, "#window", n)
    case SYN => Spelled(name, "#syn")
    case SCORE => Spelled(name, "#score")
    case AND => Spelled(name, "#and")
    case OR => Spelled(name, "#or")
    case SUM => Spelled(name, "#sum")
    case WSUM => Spelled(name, "#wsum")
  }

  /** Text without capital letters. */
  predicate Small(s: string) {
    forall i :: 0 <= i < |s| ==> !('A' <= s[i] <= 'Z')
  }

  lemma SpelledIsLower(name: string, lower: string)
    requires Small(lower)
    ensures Spelled(name, lower) <==> ToLower(name) == lower
  {
    if ToLower(name) == lower {
      forall i | 0 <= i < |name|
        ensures name[i] == lower[i] || ('a' <= lower[i] <= 'z' && name[i] as int + 32 == lower[i] as int)
      {
        assert ToLower(name)[i] == Lower(name[i]);
      }
    }
  }

  lemma StandsWithoutLetters(s: string, n: int)
    requires Stands(s, n)
    ensures forall i :: 0 <= i < |s| ==> Letterless(s[i])
  {
    hide Grouped, Value, Digits;
    var left, sign, digits, right :| Spells(s, left, sign, digits, right, n);
    GroupedIsDigits(digits);
    forall i | 0 <= i < |s| ensures Letterless(s[i]) {
      assert s[i] in left || s[i] in sign || s[i] in digits || s[i] in right;
    }
  }

  predicate Letterless(c: char) {
    !('A' <= c <= 'Z') && !('a' <= c <= 'z')
  }

  lemma GroupedIsDigits(digits: string)
    requires Grouped(digits)
    ensures forall c :: c in digits ==> '0' <= c <= '9' || c == '_'
  {
  }

  lemma NumbersHaveNoCase(s: string, n: int)
    ensures Stands(ToLower(s), n) <==> Stands(s, n)
  {
    hide Stands;
    if Stands(s, n) {
      StandsWithoutLetters(s, n);
      assert ToLower(s) == s;
    }
    if Stands(ToLower(s), n) {
      StandsWithoutLetters(ToLower(s), n);
      LowerWithoutLetters(s);
    }
  }

  lemma LowerWithoutLetters(s: string)
    requires forall i :: 0 <= i < |s| ==> Letterless(ToLower(s)[i])
    ensures ToLower(s) == s
  {
    forall i | 0 <= i < |s| ensures ToLower(s)[i] == s[i] {
      assert ToLower(s)[i] == Lower(s[i]);
    }
  }

  /** The parts of a name at its first slash. */
  function Head(name: string): string
    requires '/' in name
  {
    name[..FirstIndex(name, '/')]
  }

  function Number(name: string): string
    requires '/' in name
  {
    Before(name[FirstIndex(name, '/') + 1..], '/')
  }

  lemma BeforeSplits(s: string, c: char)
    ensures exists tail :: s == Before(s, c) + tail && c !in Before(s, c) && (tail == "" || tail[0] == c)
  {
    var b := Before(s, c);
    assert s == b + s[|b|..];
  }

  lemma BeforeIs(b: string, tail: string, c: char)
    requires c !in b && (tail == "" || tail[0] == c)
    ensures Before(b + tail, c) == b
  {
    if tail == "" {
      assert b + tail == b;
    } else {
      assert (b + tail)[|b|] == c && (b + tail)[..|b|] == b;
      FirstIndexIs(b + tail, c, |b|);
    }
  }

  /** A name has distance n exactly when its parts say so. */
  lemma DistancedParts(name: string, lower: string, n: int)
    requires '/' !in lower
    ensures Distanced(name, lower, n) <==> '/' in name && Spelled(Head(name), lower) && Stands(Number(name), n)
  {
    hide Stands, Spelled, Head, Number, Slashed;
    if Distanced(name, lower, n) {
      var head, number, tail :| Slashed(name, head, number, tail) && Spelled(head, lower) && Stands(number, n);
      DistancedHead(name, head, number, tail, lower);
    }
    if '/' in name && Spelled(Head(name), lower) && Stands(Number(name), n) {
      var tail := PartsOfName(name);
    }
  }

  lemma PartsOfName(name: string) returns (tail: string)
    requires '/' in name
    ensures Slashed(name, Head(name), Number(name), tail)
  {
    hide Before;
    var k := FirstIndex(name, '/');
    BeforeSplits(name[k + 1..], '/');
    tail :| name[k + 1..] == Number(name) + tail && '/' !in Number(name) && (tail == "" || tail[0] == '/');
  }

  lemma DistancedHead(name: string, head: string, number: string, tail: string, lower: string)
    requires Slashed(name, head, number, tail) && Spelled(head, lower) && '/' !in lower
    ensures '/' in name && Head(name) == head && Number(name) == number
  {
    hide Before;
    NoSlash(head, lower);
    assert name[|head|] == '/' && name[..|head|] == head && name[|head| + 1..] == number + tail;
    FirstIndexIs(name, '/', |head|);
    BeforeIs(number, tail, '/');
  }

  lemma NoSlash(head: string, lower: string)
    requires Spelled(head, lower) && '/' !in lower
    ensures '/' !in head
  {
    forall i | 0 <= i < |head| ensures head[i] != '/' {
      assert lower[i] in lower;
    }
  }

  lemma LowerSlash(name: string)
    ensures '/' in ToLower(name) <==> '/' in name
    ensures '/' in name ==> Head(ToLower(name)) == ToLower(Head(name)) && Number(ToLower(name)) == ToLower(Number(name))
  {
    hide Before, Lower;
    SlashInLower(name);
    if '/' in name {
      var k := FirstIndex(name, '/');
      LowerFirst(name);
      LowerOfSlices(name, k);
      LowerBefore(name[k + 1..]);
    }
  }

  lemma LowerOfSlices(s: string, k: nat)
    requires k < |s|
    ensures ToLower(s)[..k] == ToLower(s[..k]) && ToLower(s)[k + 1..] == ToLower(s[k + 1..])
  {
    hide Lower;
  }

  lemma SlashInLower(s: string)
    ensures '/' in ToLower(s) <==> '/' in s
    ensures forall i :: 0 <= i < |s| ==> (ToLower(s)[i] == '/' <==> s[i] == '/')
  {
    var t := ToLower(s);
    assert forall i :: 0 <= i < |s| ==> t[i] == Lower(s[i]) && (t[i] == '/' <==> s[i] == '/');
    if '/' in s {
      var i :| 0 <= i < |s| && s[i] == '/';
      assert t[i] == '/';
    }
    if '/' in t {
      var i :| 0 <= i < |t| && t[i] == '/';
      assert s[i] == '/';
    }
  }

  lemma LowerFirst(s: string)
    requires '/' in s
    ensures '/' in ToLower(s) && FirstIndex(ToLower(s), '/') == FirstIndex(s, '/')
  {
    var k := FirstIndex(s, '/');
    SlashInLower(s);
    SlashInLower(s[..k]);
    assert ToLower(s)[..k] == ToLower(s[..k]);
    FirstIndexIs(ToLower(s), '/', k);
  }

  lemma LowerBefore(s: string)
    ensures Before(ToLower(s), '/') == ToLower(Before(s, '/'))
  {
    SlashInLower(s);
    if '/' in s {
      LowerFirst(s);
    }
  }

  /** A name with a slash. */
  lemma SlashedName(name: string, op: Op)
    requires '/' in name
    ensures OpOf(name) == Some(op) <==> Names(name, op)
  {
    hide Stands, ParseInt, Head, Number;
    var lower := ToLower(name);
    LowerSlash(name);
    SpelledIsLower(Head(name), "#near");
    SpelledIsLower(Head(name), "#window");
    NoSlashSpelled(name);
    SlashedOp(lower);
    var number := ToLower(Number(name));
    if op.NEAR? || op.WINDOW? {
      DistancedParts(name, "#near", op.n);
      DistancedParts(name, "#window", op.n);
      NumbersHaveNoCase(Number(name), op.n);
      ParseIntExactly(number, op.n);
    }
  }

  lemma SlashedOp(lower: string)
    requires '/' in lower
    ensures LowerCaseOp(lower) ==
            match ParseInt(Number(lower))
            case None => None
            case Some(n) =>
              if Head(lower) == "#near" then Some(NEAR(n))
              else if Head(lower) == "#window" then Some(WINDOW(n))
              else None
  {
  }

  lemma NoSlashSpelled(name: string)
    requires '/' in name
    ensures !Spelled(name, "#syn") && !Spelled(name, "#score") && !Spelled(name, "#and")
            && !Spelled(name, "#or") && !Spelled(name, "#sum") && !Spelled(name, "#wsum")
  {
    var i :| 0 <= i < |name| && name[i] == '/';
    assert forall lower: string :: Spelled(name, lower) ==> lower[i] == '/';
  }

  /** A name without a slash. */
  lemma PlainName(name: string, op: Op)
    requires '/' !in name
    ensures OpOf(name) == Some(op) <==> Names(name, op)
  {
    LowerSlash(name);
    SpelledIsLower(name, "#syn");
    SpelledIsLower(name, "#score");
    SpelledIsLower(name, "#and");
    SpelledIsLower(name, "#or");
    SpelledIsLower(name, "#sum");
    SpelledIsLower(name, "#wsum");
    if op.NEAR? || op.WINDOW? {
      DistancedParts(name, "#near", op.n);
      DistancedParts(name, "#window", op.n);
    }
    hide Spelled, Distanced, ToLower, ParseInt;
  }

  /** A name stands for an operator exactly when it is one of that operator's names. */
  lemma NamedExactly(name: string, op: Op)
    ensures OpOf(name) == Some(op) <==> Names(name, op)
  {
    hide OpOf, Names;
    if '/' in name {
      SlashedName(name, op);
    } else {
      PlainName(name, op);
    }
  }

  // ----- The operator of a text

  /** The text starts with this name, between white space, in front of its first parenthesis. */
  ghost predicate Headed(s: string, name: string) {
    exists left, right, rest :: HeadedBy(s, left, name, right, rest)
  }

  ghost predicate HeadedBy(s: string, left: string, name: string, right: string, rest: string) {
    && s == left + (name + (right + ("(" + rest))) && Blank(left) && Blank(right)
    && '(' !in name && (name == "" || Trimmed(name))
  }

  /** Stripping cuts such a text only before the name and in the rest. */
  lemma StripHeaded(s: string, name: string)
    requires Headed(s, name) && '(' in Strip(s)
    ensures Strip(Strip(s)[..FirstIndex(Strip(s), '(')]) == name
  {
    hide Strip, LStrip, RStrip, Blank, Trimmed;
    var left, right, rest :| HeadedBy(s, left, name, right, rest);
    var front, u := FrontOf(left, name, right, rest);
    assert u[..|front|] == front;
    StripUnfolds(s);
    FirstOfPrefix(u, RStrip(u), |front|);
  }

  lemma FrontOf(left: string, name: string, right: string, rest: string) returns (front: string, u: string)
    requires Blank(left) && Blank(right) && '(' !in name && (name == "" || Trimmed(name))
    ensures u == front + ("(" + rest) && '(' !in front && Strip(front) == name
    ensures LStrip(left + (name + (right + ("(" + rest)))) == u
  {
    hide LStrip;
    BlankWithoutBrackets(right);
    if name == "" {
      front, u := "", "(" + rest;
      assert left + (name + (right + u)) == (left + right) + u;
      StripBlank("");
      LStripOf(left + right, u);
    } else {
      front := name + right;
      u := front + ("(" + rest);
      assert left + (name + (right + ("(" + rest))) == left + u;
      assert u[0] == name[0] && "" + name + right == front;
      StripOf("", name, right);
      LStripOf(left, u);
    }
  }

  lemma BlankWithoutBrackets(s: string)
    requires Blank(s)
    ensures '(' !in s
  {
  }

  lemma FirstOfPrefix(u: string, t: string, k: nat)
    requires |t| <= |u| && u[..|t|] == t && k < |u| && u[k] == '(' && '(' !in u[..k] && '(' in t
    ensures FirstIndex(t, '(') == k && t[..k] == u[..k]
  {
    forall i | 0 <= i < k ensures u[i] != '(' {
      assert u[..k][i] != '(';
    }
    var f := FirstIndex(t, '(');
    assert u[..|t|][f] == t[f];
    assert t[..k] == u[..|t|][..k] == u[..k];
    FirstIndexIs(t, '(', k);
  }

  /** Whatever parses has the operator that the name in front of its first parenthesis is a name of. */
  lemma ParsedOperator(s: string, name: string, lx: Lexicon)
    requires Headed(s, name)
    ensures Parse(s, lx).Ok? ==> Names(name, Parse(s, lx).value.op)
    ensures (forall op :: !Names(name, op)) ==> Parse(s, lx).Raised?
  {
    hide Headed, Names, Strip, OpOf, ParseArgs, FirstIndex, LastIndex, WellBracketed, Scan;
    if SplitQuery(s).Some? {
      SplitHead(s, name);
      var (head, body) := SplitQuery(s).value;
      if op :| OpOf(name) == Some(op) {
        NamedExactly(name, op);
        ParseArgsKeepsOp(CreateOperator(name).value, body, lx);
      }
    }
  }

  lemma SplitHead(s: string, name: string)
    requires Headed(s, name) && SplitQuery(s).Some?
    ensures SplitQuery(s).value.0 == name
  {
    hide Headed, Strip, FirstIndex, LastIndex;
    BracketsDelimit(Strip(s));
    StripHeaded(s, name);
  }

  lemma OneOperator(name: string, op: Op, other: Op)
    requires Names(name, op) && Names(name, other)
    ensures op == other
  {
    hide Names;
    NamedExactly(name, op);
    NamedExactly(name, other);
  }

  /** #NEAR/n and #WINDOW/n, in any letter case and with n in decimal digits. */
  lemma DistanceRead(s: string, head: string, n: nat, lx: Lexicon)
    requires Headed(s, head + "/" + Decimal(n)) && Parse(s, lx).Ok?
    ensures Spelled(head, "#near") ==> Parse(s, lx).value.op == NEAR(n)
    ensures Spelled(head, "#window") ==> Parse(s, lx).value.op == WINDOW(n)
  {
    hide Headed, Parse, Stands, Spelled;
    var name := head + "/" + Decimal(n);
    DecimalStands(n);
    DecimalDigits(n);
    assert name == head + "/" + Decimal(n) + "";
    assert Slashed(name, head, Decimal(n), "");
    hide Decimal, Slashed;
    ParsedOperator(s, name, lx);
    if Spelled(head, "#near") {
      assert Names(name, NEAR(n));
      OneOperator(name, NEAR(n), Parse(s, lx).value.op);
    }
    if Spelled(head, "#window") {
      assert Names(name, WINDOW(n));
      OneOperator(name, WINDOW(n), Parse(s, lx).value.op);
    }
  }

  /** The six plain names in any letter case; every other name without a slash is an error. */
  lemma PlainNameRead(s: string, name: string, lx: Lexicon)
    requires Headed(s, name) && '/' !in name
    ensures Parse(s, lx).Ok? ==>
              match Parse(s, lx).value.op
              case SYN => Spelled(name, "#syn")
              case SCORE => Spelled(name, "#score")
              case AND => Spelled(name, "#and")
              case OR => Spelled(name, "#or")
              case SUM => Spelled(name, "#sum")
              case WSUM => Spelled(name, "#wsum")
              case _ => false
  {
    hide Headed, Parse, Spelled, Stands;
    ParsedOperator(s, name, lx);
    DistanceNeedsSlash(name);
  }

  lemma DistanceNeedsSlash(name: string)
    ensures forall lower, n :: Distanced(name, lower, n) ==> '/' in name
  {
    forall lower, n | Distanced(name, lower, n) ensures '/' in name {
      var head, number, tail :| Slashed(name, head, number, tail) && Spelled(head, lower) && Stands(number, n);
      assert name[|head|] == '/';
    }
  }

  // ----- The field of a term

  /** The token is a term, a dot, and the name of a field in any letter case. */
  ghost predicate Fielded(token: string, term: string, field: string) {
    && field in {"body", "title", "url", "keywords", "inlink"}
    && exists suffix :: Spelled(suffix, field) && term != "" && token == term + "." + suffix
  }

  lemma FieldsAreSmall(field: string)
    requires field in {"body", "title", "url", "keywords", "inlink"}
    ensures Small(field) && '.' !in field && field in KNOWN_FIELDS
  {
  }

  lemma NoDot(suffix: string, field: string)
    requires Spelled(suffix, field) && '.' !in field
    ensures '.' !in suffix
  {
    forall i | 0 <= i < |suffix| ensures suffix[i] != '.' {
      assert field[i] in field;
    }
  }

  /** A token has a field exactly when it is written as one; any other token is a term of the body. */
  lemma FieldExactly(token: string, term: string, field: string)
    ensures TermAndField(token) == (term, field) <==>
              if exists t, f :: Fielded(token, t, f) then Fielded(token, term, field)
              else term == token && field == "body"
  {
    if t, f :| Fielded(token, t, f) {
      FieldedIsRead(token, t, f);
      if Fielded(token, term, field) {
        FieldedIsRead(token, term, field);
      }
    } else {
      UnfieldedIsRead(token);
    }
  }

  lemma FieldedIsRead(token: string, term: string, field: string)
    requires Fielded(token, term, field)
    ensures TermAndField(token) == (term, field)
  {
    hide Spelled, ToLower, KNOWN_FIELDS, Small;
    FieldsAreSmall(field);
    var suffix :| Spelled(suffix, field) && term != "" && token == term + "." + suffix;
    NoDot(suffix, field);
    SpelledIsLower(suffix, field);
    DotSplits(token, term, suffix);
  }

  lemma DotSplits(token: string, term: string, suffix: string)
    requires token == term + "." + suffix && '.' !in suffix
    ensures '.' in token && LastIndex(token, '.') == |term|
    ensures token[..|term|] == term && token[|term| + 1..] == suffix
  {
    assert token[|term|] == '.' && token[|term| + 1..] == suffix && token[..|term|] == term;
    LastIndexIs(token, '.', |term|);
  }

  lemma UnfieldedIsRead(token: string)
    requires forall t, f :: !Fielded(token, t, f)
    ensures TermAndField(token) == (token, "body")
  {
    if '.' in token {
      var k := LastIndex(token, '.');
      var suffix := token[k + 1..];
      var field := ToLower(suffix);
      if k > 0 && field in KNOWN_FIELDS {
        FieldsAreSmall(field);
        SpelledIsLower(suffix, field);
        assert token == token[..k] + "." + suffix;
        assert Fielded(token, token[..k], field);
        assert false;
      }
    }
  }

  /** The terms of a token: the analyzer's, in its order, all in the token's field. */
  lemma TermsOfToken(token: string, term: string, field: string, lx: Lexicon)
    requires if exists t, f :: Fielded(token, t, f) then Fielded(token, term, field)
             else term == token && field == "body"
    ensures var terms := CreateTerms(token, lx);
            && |terms| == |lx.tokenize(term)|
            && forall i :: 0 <= i < |terms| ==> terms[i] == Term(lx.tokenize(term)[i], field)
  {
    hide Fielded, TermAndField;
    FieldExactly(token, term, field);
  }
}
