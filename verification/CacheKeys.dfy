/** The key under which an answer is cached: which questions share it. */
module CacheKeys {
  import opened Text

  /** The cache key: the policy, and the question up to white space; corpus and configuration are fixed. */
  datatype Key = Key(policy: string, words: seq<string>)

  function Words(s: string): seq<string>
    decreases |s|
  {
    match PopTerm(s)
    case None => []
    case Some((w, rest)) => [w] + Words(rest)
  }

  function CacheKey(question: string, policy: string): Key {
    Key(policy, Words(question))
  }

  // ----- Texts as words between white space

  /** The words, each with white space before it, and white space at the end. */
  function Padded(words: seq<string>, pads: seq<string>): string
    requires |pads| == |words| + 1
  {
    if words == [] then pads[0] else pads[0] + (words[0] + Padded(words[1..], pads[1..]))
  }

  /** Words without white space, white space without words, and some of it between any two words. */
  predicate IsPadding(words: seq<string>, pads: seq<string>) {
    && |pads| == |words| + 1
    && (forall i :: 0 <= i < |words| ==> IsWord(words[i]))
    && (forall i :: 0 <= i < |pads| ==> Blank(pads[i]))
    && (forall i :: 0 < i < |words| ==> pads[i] != "")
  }

  ghost predicate IsText(s: string, words: seq<string>) {
    exists pads :: IsPadding(words, pads) && s == Padded(words, pads)
  }

  /** The two questions are the same words, whatever white space is between and around them. */
  ghost predicate SameWords(s: string, t: string) {
    exists words :: IsText(s, words) && IsText(t, words)
  }

  lemma WordsStep(s: string)
    ensures Words(s) == match PopTerm(s) case None => [] case Some((w, rest)) => [w] + Words(rest)
  {
  }

  lemma PaddingStarts(words: seq<string>, pads: seq<string>)
    requires IsPadding(words, pads)
    ensures words == [] ==> Blank(Padded(words, pads))
    ensures words != [] ==> IsPadding(words[1..], pads[1..])
    ensures words != [] ==>
              var rest := Padded(words[1..], pads[1..]);
              Padded(words, pads) == pads[0] + (words[0] + rest) && (rest == "" || IsSpace(rest[0]))
  {
    if |words| == 1 {
      assert Padded(words[1..], pads[1..]) == pads[1];
    } else if |words| > 1 {
      var rest := Padded(words[1..], pads[1..]);
      assert rest == pads[1] + (words[1] + Padded(words[1..][1..], pads[1..][1..]));
      assert rest[0] == pads[1][0];
    }
  }

  /** White space in front does not count. */
  lemma WordsOfStripped(s: string)
    ensures Words(LStrip(s)) == Words(s)
  {
    LStripTwice(s);
    WordsStep(s);
    WordsStep(LStrip(s));
    hide LStrip, Words, WordLength;
  }

  lemma LStripTwice(s: string)
    ensures LStrip(LStrip(s)) == LStrip(s)
  {
    assert "" + LStrip(s) == LStrip(s);
    LStripOf("", LStrip(s));
  }

  /** Padded words have just these words. */
  lemma {:induction false} WordsOfPadded(words: seq<string>, pads: seq<string>)
    requires IsPadding(words, pads)
    ensures Words(Padded(words, pads)) == words
    decreases |words|
  {
    hide PopTerm, Padded, LStrip, IsWord, Blank, Words, IsPadding;
    PaddingStarts(words, pads);
    PaddingLengths(words, pads);
    var s := Padded(words, pads);
    WordsStep(s);
    if words == [] {
      PopTermExactly(s);
    } else {
      var rest := Padded(words[1..], pads[1..]);
      FirstPadded(words, pads);
      PopWord(pads[0], words[0], rest);
      WordsOfPadded(words[1..], pads[1..]);
      WordsOfStripped(rest);
      assert [words[0]] + words[1..] == words;
    }
  }

  lemma PaddingLengths(words: seq<string>, pads: seq<string>)
    requires IsPadding(words, pads)
    ensures |pads| == |words| + 1
  {
  }

  lemma FirstPadded(words: seq<string>, pads: seq<string>)
    requires IsPadding(words, pads) && words != []
    ensures Blank(pads[0]) && IsWord(words[0])
  {
  }

  /** Every text is its words, padded. */
  lemma {:induction false} TextIsPadded(s: string)
    ensures IsText(s, Words(s))
    decreases |s|
  {
    hide PopTerm, LStrip, IsWord, Blank, Words;
    PopTermExactly(s);
    WordsStep(s);
    if PopTerm(s).None? {
      assert Padded([], [s]) == s && IsPadding([], [s]);
    } else {
      var (w, next) := PopTerm(s).value;
      var pad, rest :| Begins(s, pad, w, rest, next);
      RestIsShorter(s, pad, w, rest, next);
      TextIsPadded(rest);
      WordsOfStripped(rest);
      var pads :| IsPadding(Words(rest), pads) && rest == Padded(Words(rest), pads);
      OneWordMore(pad, w, rest, Words(rest), pads);
      assert s == Padded([w] + Words(rest), [pad] + pads);
    }
  }

  lemma RestIsShorter(s: string, pad: string, w: string, rest: string, next: string)
    requires Begins(s, pad, w, rest, next)
    ensures |rest| < |s| && s == pad + (w + rest) && Blank(pad) && IsWord(w) && (rest == "" || IsSpace(rest[0]))
    ensures next == LStrip(rest)
  {
  }

  lemma OneWordMore(pad: string, w: string, rest: string, words: seq<string>, pads: seq<string>)
    requires Blank(pad) && IsWord(w) && (rest == "" || IsSpace(rest[0]))
    requires IsPadding(words, pads) && rest == Padded(words, pads)
    ensures IsPadding([w] + words, [pad] + pads)
    ensures Padded([w] + words, [pad] + pads) == pad + (w + rest)
  {
    var ws, ps := [w] + words, [pad] + pads;
    assert ws[1..] == words && ps[1..] == pads;
    if words != [] {
      PadInFront(words, pads);
      assert ps[1] == pads[0];
    }
  }

  lemma PadInFront(words: seq<string>, pads: seq<string>)
    requires IsPadding(words, pads) && words != []
    ensures var s := Padded(words, pads); s != "" && (IsSpace(s[0]) <==> pads[0] != "")
  {
    var s := Padded(words, pads);
    assert s == pads[0] + (words[0] + Padded(words[1..], pads[1..]));
    assert s[0] == if pads[0] == "" then words[0][0] else pads[0][0];
  }

  /** A text is made of just one list of words. */
  lemma WordsExactly(s: string, words: seq<string>)
    ensures IsText(s, words) <==> words == Words(s)
  {
    hide Words, Padded, Blank, IsWord;
    TextIsPadded(s);
    if pads :| IsPadding(words, pads) && s == Padded(words, pads) {
      WordsOfPadded(words, pads);
    }
  }

  /** Two requests share a key if and only if policy and words are the same. */
  lemma SameKeyExactly(question: string, policy: string, other: string, policy': string)
    ensures CacheKey(question, policy) == CacheKey(other, policy')
            <==> policy == policy' && SameWords(question, other)
  {
    hide IsText, Words;
    WordsExactly(question, Words(question));
    WordsExactly(other, Words(question));
    if words :| IsText(question, words) && IsText(other, words) {
      WordsExactly(question, words);
      WordsExactly(other, words);
    }
  }
}
