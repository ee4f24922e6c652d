/** The string operations the query parser is written with. */
module Text {
  import opened Wrappers

  predicate IsSpace(c: char) {
    c == ' ' || '\t' <= c <= '\r' || '\U{1C}' <= c <= '\U{1F}' || c == '\U{85}' || c == '\U{A0}'
  }

  function Lower(c: char): char {
    if 'A' <= c <= 'Z' then (c as int + 32) as char else c
  }

  function Upper(c: char): char {
    if 'a' <= c <= 'z' then (c as int - 32) as char else c
  }

  function ToLower(s: string): (r: string)
    ensures |r| == |s| && forall i :: 0 <= i < |s| ==> r[i] == Lower(s[i])
  {
    seq(|s|, i requires 0 <= i < |s| => Lower(s[i]))
  }

  function ToUpper(s: string): (r: string)
    ensures |r| == |s| && forall i :: 0 <= i < |s| ==> r[i] == Upper(s[i])
  {
    seq(|s|, i requires 0 <= i < |s| => Upper(s[i]))
  }

  lemma CaseIsStable(s: string)
    ensures ToLower(ToUpper(s)) == ToLower(s) && ToUpper(ToUpper(s)) == ToUpper(s)
  {
  }

  function LStrip(s: string): (r: string)
    ensures |r| <= |s| && s[|s| - |r|..] == r
    ensures r != [] ==> !IsSpace(r[0])
  {
    if s != [] && IsSpace(s[0]) then LStrip(s[1..]) else s
  }

  function RStrip(s: string): (r: string)
    ensures |r| <= |s| && s[..|r|] == r
    ensures r != [] ==> !IsSpace(r[|r| - 1])
  {
    if s != [] && IsSpace(s[|s| - 1]) then RStrip(s[..|s| - 1]) else s
  }

  function Strip(s: string): (r: string)
    ensures |r| <= |s|
  {
    RStrip(LStrip(s))
  }

  /** Text that neither starts nor ends with white space. */
  predicate Trimmed(s: string) {
    s != [] && !IsSpace(s[0]) && !IsSpace(s[|s| - 1])
  }

  lemma {:induction false} LStripOf(pad: string, s: string)
    requires (forall i :: 0 <= i < |pad| ==> IsSpace(pad[i])) && (s != [] ==> !IsSpace(s[0]))
    ensures LStrip(pad + s) == s
  {
    if pad == [] {
      assert pad + s == s;
    } else {
      assert (pad + s)[1..] == pad[1..] + s;
      LStripOf(pad[1..], s);
    }
  }

  lemma {:induction false} RStripOf(s: string, pad: string)
    requires (forall i :: 0 <= i < |pad| ==> IsSpace(pad[i])) && (s != [] ==> !IsSpace(s[|s| - 1]))
    ensures RStrip(s + pad) == s
  {
    if pad == [] {
      assert s + pad == s;
    } else {
      assert (s + pad)[..|s + pad| - 1] == s + pad[..|pad| - 1];
      RStripOf(s, pad[..|pad| - 1]);
    }
  }

  lemma StripOf(left: string, s: string, right: string)
    requires forall i :: 0 <= i < |left| ==> IsSpace(left[i])
    requires forall i :: 0 <= i < |right| ==> IsSpace(right[i])
    requires Trimmed(s)
    ensures Strip(left + s + right) == s
  {
    assert left + s + right == left + (s + right);
    LStripOf(left, s + right);
    RStripOf(s, right);
  }

  lemma StripBlank(pad: string)
    requires forall i :: 0 <= i < |pad| ==> IsSpace(pad[i])
    ensures Strip(pad) == []
  {
    assert pad + [] == pad;
    LStripOf(pad, []);
  }

  lemma StripTrimmed(s: string)
    requires Trimmed(s)
    ensures Strip(s) == s
  {
    StripOf([], s, []);
    assert [] + s + [] == s;
  }

  /** Stripped text is trimmed, or nothing. */
  lemma StripTrims(s: string)
    ensures Strip(s) == [] || Trimmed(Strip(s))
  {
    var l := LStrip(s);
    var r := RStrip(l);
    if r != [] {
      assert r[0] == l[..|r|][0] == l[0];
    }
  }

  // ----- Words

  function WordLength(s: string): (n: nat)
    ensures n <= |s| && (forall i :: 0 <= i < n ==> !IsSpace(s[i])) && (n < |s| ==> IsSpace(s[n]))
  {
    if s == [] || IsSpace(s[0]) then 0 else 1 + WordLength(s[1..])
  }

  /** s.split(maxsplit=1): the first word, and what follows it; None for blank text. */
  function PopTerm(s: string): (r: Option<(string, string)>)
    ensures r.Some? ==> |r.value.1| < |s| && |r.value.0| <= |s|
  {
    var t := LStrip(s);
    if t == [] then None
    else Some((t[..WordLength(t)], LStrip(t[WordLength(t)..])))
  }

  predicate IsWord(s: string) {
    s != [] && forall i :: 0 <= i < |s| ==> !IsSpace(s[i])
  }

  lemma {:induction false} WordLengthOf(w: string, s: string)
    requires (forall i :: 0 <= i < |w| ==> !IsSpace(w[i])) && (s == [] || IsSpace(s[0]))
    ensures WordLength(w + s) == |w|
  {
    if w == [] {
      assert w + s == s;
    } else {
      assert (w + s)[1..] == w[1..] + s;
      WordLengthOf(w[1..], s);
    }
  }

  predicate Blank(s: string) {
    forall i :: 0 <= i < |s| ==> IsSpace(s[i])
  }

  /** How much white space stripping takes away at the left. */
  lemma {:induction false} LStripSuffix(s: string) returns (k: nat)
    ensures k <= |s| && LStrip(s) == s[k..] && Blank(s[..k]) && (k < |s| ==> !IsSpace(s[k]))
  {
    hide IsSpace;
    k := 0;
    if s != [] && IsSpace(s[0]) {
      var rest := s[1..];
      var j := LStripSuffix(rest);
      k := j + 1;
      assert rest[j..] == s[k..];
      forall i | 0 <= i < k ensures IsSpace(s[..k][i]) {
        assert i > 0 ==> s[i] == rest[..j][i - 1];
      }
    }
  }

  lemma {:induction false} RStripPrefix(s: string) returns (k: nat)
    ensures k <= |s| && RStrip(s) == s[..k] && Blank(s[k..])
  {
    hide IsSpace;
    k := |s|;
    if s != [] && IsSpace(s[|s| - 1]) {
      var rest := s[..|s| - 1];
      k := RStripPrefix(rest);
      assert rest[..k] == s[..k];
      forall i | 0 <= i < |s| - k ensures IsSpace(s[k..][i]) {
        assert i < |s| - k - 1 ==> s[k..][i] == rest[k..][i];
      }
    } else {
      assert s[..k] == s;
    }
  }

  /** Stripping takes white space away at both ends. */
  lemma StripSplits(s: string) returns (left: string, right: string)
    ensures s == left + Strip(s) + right && Blank(left) && Blank(right)
  {
    hide IsSpace, Blank, LStrip, RStrip, Strip;
    var j := LStripSuffix(s);
    var t := s[j..];
    var k := RStripPrefix(t);
    left, right := s[..j], t[k..];
    SplitEnds(s, j, k);
    StripUnfolds(s);
  }

  lemma SplitEnds(s: string, j: nat, k: nat)
    requires j <= |s| && k <= |s| - j
    ensures s == s[..j] + s[j..][..k] + s[j..][k..]
  {
  }

  lemma StripUnfolds(s: string)
    ensures Strip(s) == RStrip(LStrip(s))
  {
  }

  /**
   Popping takes exactly the first word, whatever white space is around it, and leaves the text from the next
   word on.
   */
  lemma PopWord(pad: string, w: string, rest: string)
    requires Blank(pad) && IsWord(w) && (rest == [] || IsSpace(rest[0]))
    ensures PopTerm(pad + (w + rest)) == Some((w, LStrip(rest)))
  {
    var t := w + rest;
    LStripOf(pad, t);
    WordLengthOf(w, rest);
    assert t[..|w|] == w && t[|w|..] == rest;
  }

  /** w is the first word of s, after white space; next is the text from the word after it on. */
  ghost predicate Begins(s: string, pad: string, w: string, rest: string, next: string) {
    && Blank(pad) && IsWord(w) && (rest == [] || IsSpace(rest[0]))
    && s == pad + (w + rest) && next == LStrip(rest)
  }

  /** Text that is not blank has such a first word, and only blank text has none. */
  lemma PopTermExactly(s: string)
    ensures PopTerm(s).None? <==> Blank(s)
    ensures PopTerm(s).Some? ==> exists pad, rest :: Begins(s, pad, PopTerm(s).value.0, rest, PopTerm(s).value.1)
  {
    hide IsSpace, LStrip, WordLength, Blank, PopTerm, Begins;
    var j := LStripSuffix(s);
    PopTermUnfolds(s);
    if j == |s| {
      assert s[..j] == s;
    } else {
      FirstWordBegins(s, j);
      NotBlank(s, j);
    }
  }

  lemma PopTermUnfolds(s: string)
    ensures var t := LStrip(s);
            PopTerm(s) == if t == [] then None else Some((t[..WordLength(t)], LStrip(t[WordLength(t)..])))
  {
    hide IsSpace, LStrip, WordLength;
  }

  lemma FirstWordBegins(s: string, j: nat)
    requires j < |s| && Blank(s[..j]) && !IsSpace(s[j])
    ensures var t := s[j..];
            var k := WordLength(t);
            Begins(s, s[..j], t[..k], t[k..], LStrip(t[k..]))
  {
    hide IsSpace, LStrip, WordLength, Blank, IsWord;
    var t := s[j..];
    assert t[0] == s[j];
    FirstWord(t);
    SplitTwice(s, j, WordLength(t));
  }

  lemma FirstWord(t: string)
    requires t != [] && !IsSpace(t[0])
    ensures var k := WordLength(t); k > 0 && IsWord(t[..k]) && (t[k..] == [] || IsSpace(t[k..][0]))
  {
    hide IsSpace;
  }

  lemma NotBlank(s: string, j: nat)
    requires j < |s| && !IsSpace(s[j])
    ensures !Blank(s)
  {
  }

  lemma SplitTwice(s: string, j: nat, k: nat)
    requires j <= |s| && k <= |s[j..]|
    ensures s == s[..j] + (s[j..][..k] + s[j..][k..])
  {
  }

  lemma PopFirstWord(w: string, s: string)
    requires IsWord(w) && Trimmed(s)
    ensures PopTerm(w + " " + s) == Some((w, s))
  {
    BlankSpace();
    hide IsSpace, PopTerm, LStrip;
    assert [] + (w + (" " + s)) == w + " " + s;
    PopWord([], w, " " + s);
    LStripOf(" ", s);
  }

  lemma BlankSpace()
    ensures IsSpace(' ')
  {
  }

  lemma PopLastWord(w: string)
    requires IsWord(w)
    ensures PopTerm(w) == Some((w, ""))
  {
    WordLengthOf(w, "");
    assert w + "" == w && w[..|w|] == w && w[|w|..] == "";
  }

  // ----- Searching for characters

  function Count(s: string, c: char): nat {
    if s == [] then 0 else (if s[0] == c then 1 else 0) + Count(s[1..], c)
  }

  lemma {:induction false} CountAppend(s: string, t: string, c: char)
    ensures Count(s + t, c) == Count(s, c) + Count(t, c)
  {
    if s == [] {
      assert s + t == t;
    } else {
      assert (s + t)[1..] == s[1..] + t;
      CountAppend(s[1..], t, c);
    }
  }

  lemma {:induction false} CountNone(s: string, c: char)
    requires c !in s
    ensures Count(s, c) == 0
  {
    if s != [] {
      CountNone(s[1..], c);
    }
  }

  lemma {:induction false} CountSome(s: string, c: char)
    requires Count(s, c) > 0
    ensures c in s
  {
    if s[0] != c {
      CountSome(s[1..], c);
    }
  }

  /** The index of the first `c`. */
  function FirstIndex(s: string, c: char): (k: nat)
    requires c in s
    ensures k < |s| && s[k] == c && c !in s[..k]
  {
    if s[0] == c then 0
    else
      var rest := FirstIndex(s[1..], c);
      assert s[..rest + 1] == [s[0]] + s[1..][..rest];
      rest + 1
  }

  /** The index of the last `c`. */
  function LastIndex(s: string, c: char): (k: nat)
    requires c in s
    ensures k < |s| && s[k] == c && c !in s[k + 1..]
  {
    if s[|s| - 1] == c then |s| - 1
    else
      assert s == s[..|s| - 1] + [s[|s| - 1]];
      var k := LastIndex(s[..|s| - 1], c);
      assert s[k + 1..] == s[..|s| - 1][k + 1..] + [s[|s| - 1]];
      k
  }

  lemma FirstIndexIs(s: string, c: char, k: nat)
    requires k < |s| && s[k] == c && c !in s[..k]
    ensures FirstIndex(s, c) == k
  {
    assert forall i :: 0 <= i < k ==> s[..k][i] == s[i];
    assert forall i :: 0 <= i < FirstIndex(s, c) ==> s[..FirstIndex(s, c)][i] == s[i];
  }

  lemma LastIndexIs(s: string, c: char, k: nat)
    requires k < |s| && s[k] == c && c !in s[k + 1..]
    ensures LastIndex(s, c) == k
  {
    var f := LastIndex(s, c);
    assert forall i :: k < i < |s| ==> s[k + 1..][i - k - 1] == s[i];
    assert forall i :: f < i < |s| ==> s[f + 1..][i - f - 1] == s[i];
  }

  // ----- Integers, as int() reads them

  predicate IsDigit(c: char) {
    '0' <= c <= '9'
  }

  function ParseDigits(s: string, acc: nat, afterDigit: bool): Option<nat> {
    if s == [] then (if afterDigit then Some(acc) else None)
    else if IsDigit(s[0]) then ParseDigits(s[1..], acc * 10 + (s[0] as int - '0' as int), true)
    else if s[0] == '_' && afterDigit then ParseDigits(s[1..], acc, false)
    else None
  }

  /** White space around, one sign, and single underscores between digits are allowed. */
  function ParseInt(s: string): Option<int> {
    var t := Strip(s);
    if t == [] then None
    else
      var digits := if t[0] == '-' || t[0] == '+' then t[1..] else t;
      match ParseDigits(digits, 0, false)
      case None => None
      case Some(n) => Some(if t[0] == '-' then 0 - n as int else n as int)
  }

  // ----- Balanced parentheses

  function Shift(r: Result<int>, k: nat): Result<int> {
    match r
    case Raised(_) => r
    case Ok(i) => Ok(if i < 0 then i else i + k)
  }

  /** Where the first open parenthesis is balanced, scanning from depth `depth`; -1 if it is not. */
  function Scan(s: string, depth: nat): Result<int> {
    if s == [] then Ok(-1)
    else if s[0] == '(' then Shift(Scan(s[1..], depth + 1), 1)
    else if s[0] == ')' then
      if depth == 0 then Raised("Unbalanced or missing parentheses")
      else if depth == 1 then Ok(0)
      else Shift(Scan(s[1..], depth - 1), 1)
    else Shift(Scan(s[1..], depth), 1)
  }

  lemma {:induction false} ScanRange(s: string, depth: nat)
    ensures Scan(s, depth).Ok? ==> -1 <= Scan(s, depth).value < |s|
    ensures Scan(s, depth).Ok? && Scan(s, depth).value >= 0 ==> s[Scan(s, depth).value] == ')'
  {
    if s != [] {
      ScanRange(s[1..], depth + 1);
      if depth > 0 {
        ScanRange(s[1..], depth - 1);
      }
      ScanRange(s[1..], depth);
    }
  }

  /** How many more parentheses are opened than closed in the first k characters. */
  function Level(s: string, k: nat): int
    requires k <= |s|
  {
    Count(s[..k], '(') - Count(s[..k], ')')
  }

  /** The first closing parenthesis that leaves none open, from depth `depth`. */
  predicate ClosesAt(s: string, depth: int, i: int) {
    && 0 <= i < |s| && s[i] == ')' && depth + Level(s, i + 1) <= 0
    && forall k :: 0 <= k < i && s[k] == ')' ==> depth + Level(s, k + 1) > 0
  }

  lemma LevelStep(s: string, k: nat)
    requires k < |s|
    ensures Level(s, k + 1) == Level(s[1..], k) + (if s[0] == '(' then 1 else if s[0] == ')' then -1 else 0)
  {
    assert s[..k + 1][1..] == s[1..][..k];
  }

  lemma ClosesStep(s: string, depth: int, i: int)
    requires s != "" && !(s[0] == ')' && depth <= 1)
    ensures var next := depth + (if s[0] == '(' then 1 else if s[0] == ')' then -1 else 0);
            ClosesAt(s, depth, i) <==> i > 0 && ClosesAt(s[1..], next, i - 1)
  {
    hide Level;
    var next := depth + (if s[0] == '(' then 1 else if s[0] == ')' then -1 else 0);
    NothingRead(s[1..]);
    forall k | 0 <= k < |s| ensures depth + Level(s, k + 1) == next + Level(s[1..], k) {
      LevelStep(s, k);
    }
    assert forall k :: 0 <= k < |s| - 1 ==> s[1..][k] == s[k + 1];
    if ClosesAt(s, depth, i) && i > 0 {
      forall k | 0 <= k < i - 1 && s[1..][k] == ')' ensures next + Level(s[1..], k + 1) > 0 {
        assert s[k + 1] == ')';
      }
    }
  }

  lemma NothingRead(s: string)
    ensures Level(s, 0) == 0
  {
  }

  /** The scan finds the parenthesis that closes the last open one, or reports that one closes too much. */
  lemma {:induction false} ScanExactly(s: string, depth: nat, i: int)
    ensures Scan(s, depth) == Ok(i) && i >= 0 <==> ClosesAt(s, depth, i) && depth + Level(s, i + 1) == 0
    ensures ClosesAt(s, depth, i) && depth + Level(s, i + 1) < 0 ==> Scan(s, depth).Raised?
  {
    hide Level, ClosesAt;
    if s == "" {
      NowhereClosed(depth, i);
    } else if s[0] == ')' && depth <= 1 {
      ClosedAtOnce(s, depth, i);
    } else {
      var next := depth + (if s[0] == '(' then 1 else if s[0] == ')' then -1 else 0);
      ScanExactly(s[1..], next, i - 1);
      ClosesStep(s, depth, i);
      if ClosesAt(s, depth, i) {
        ClosedInside(s, depth, i);
      }
    }
  }

  lemma NowhereClosed(depth: nat, i: int)
    ensures !ClosesAt("", depth, i)
  {
  }

  lemma ClosedInside(s: string, depth: int, i: int)
    requires ClosesAt(s, depth, i) && i > 0
    ensures i < |s|
    ensures Level(s, i + 1) == Level(s[1..], i) + (if s[0] == '(' then 1 else if s[0] == ')' then -1 else 0)
  {
    LevelStep(s, i);
  }

  lemma ClosedAtOnce(s: string, depth: nat, i: int)
    requires s != "" && s[0] == ')' && depth <= 1
    ensures ClosesAt(s, depth, i) <==> i == 0
    ensures ClosesAt(s, depth, 0) && Level(s, 1) == -1
  {
    NothingRead(s[1..]);
    LevelStep(s, 0);
  }

  /** Nothing before the balanced parenthesis closes at depth 0. */
  lemma {:induction false} ScanBeforeOpen(s: string, k: nat)
    requires k < |s| && s[k] == '(' && '(' !in s[..k] && Scan(s, 0).Ok?
    ensures ')' !in s[..k]
  {
    if k > 0 {
      assert s[0] == s[..k][0];
      assert s[1..][..k - 1] == s[..k][1..];
      ScanBeforeOpen(s[1..], k - 1);
      assert s[..k] == [s[0]] + s[1..][..k - 1];
    }
  }

  /** The loop of __indexOfBalancingParen. */
  method IndexOfBalancingParen(s: string) returns (r: Result<int>)
    ensures r == Scan(s, 0)
  {
    var depth: nat := 0;
    for i := 0 to |s|
      invariant Scan(s, 0) == Shift(Scan(s[i..], depth), i)
    {
      assert s[i..][1..] == s[i + 1..];
      if s[i] == '(' {
        depth := depth + 1;
      } else if s[i] == ')' {
        if depth == 0 {
          return Raised("Unbalanced or missing parentheses");
        }
        depth := depth - 1;
        if depth == 0 {
          return Ok(i);
        }
      }
    }
    return Ok(-1);
  }

  lemma {:induction false} ScanPlain(s: string, rest: string, depth: nat)
    requires '(' !in s && ')' !in s
    ensures Scan(s + rest, depth) == Shift(Scan(rest, depth), |s|)
  {
    if s == [] {
      assert s + rest == rest;
    } else {
      assert (s + rest)[1..] == s[1..] + rest;
      ScanPlain(s[1..], rest, depth);
    }
  }
}
