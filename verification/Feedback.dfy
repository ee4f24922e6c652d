/** The relevance-model scores of expansion terms: a mixture of smoothed document models. */
module Feedback {

  /** The counts of a document's terms, and its length. */
  datatype Document = Document(tf: map<string, nat>, length: nat)

  /** Collection frequencies, and the collection's length in terms. */
  datatype Collection = Collection(ctf: string -> int, length: int)

  // ----- Documents

  function Count(tokens: seq<string>, t: string): nat {
    if tokens == [] then 0 else (if tokens[0] == t then 1 else 0) + Count(tokens[1..], t)
  }

  /** A document rebuilt from its stored field. */
  function FromStored(tokens: seq<string>): Document {
    Document(map t | t in tokens :: Count(tokens, t), |tokens|)
  }

  /** The document without the terms that are not fit for expansion. */
  function Filtered(d: Document, valid: string -> bool): Document {
    Document(map t | t in d.tf && valid(t) :: d.tf[t], d.length)
  }

  function Tf(d: Document, t: string): nat {
    if t in d.tf then d.tf[t] else 0
  }

  function TfSum(d: Document, terms: seq<string>): nat {
    if terms == [] then 0 else Tf(d, terms[0]) + TfSum(d, terms[1..])
  }

  ghost predicate Distinct(terms: seq<string>) {
    forall i, j :: 0 <= i < j < |terms| ==> terms[i] != terms[j]
  }

  /** The counts of different terms add up to no more than the document's length. */
  ghost predicate CountsFit(d: Document) {
    forall terms :: Distinct(terms) ==> TfSum(d, terms) <= d.length
  }

  lemma {:induction false} ShorterStored(tokens: seq<string>, terms: seq<string>)
    requires tokens != [] && Distinct(terms)
    ensures TfSum(FromStored(tokens), terms)
            == TfSum(FromStored(tokens[1..]), terms) + (if tokens[0] in terms then 1 else 0)
  {
    if terms != [] {
      assert tokens == [tokens[0]] + tokens[1..] && terms == [terms[0]] + terms[1..];
      ShorterStored(tokens, terms[1..]);
      StoredTf(tokens, terms[0]);
      StoredTf(tokens[1..], terms[0]);
    }
  }

  lemma StoredTf(tokens: seq<string>, t: string)
    ensures Tf(FromStored(tokens), t) == Count(tokens, t)
  {
    if t !in tokens {
      AbsentCount(tokens, t);
    }
  }

  lemma {:induction false} AbsentCount(tokens: seq<string>, t: string)
    requires t !in tokens
    ensures Count(tokens, t) == 0
  {
    if tokens != [] {
      AbsentCount(tokens[1..], t);
    }
  }

  lemma {:induction false} StoredSum(tokens: seq<string>, terms: seq<string>)
    requires Distinct(terms)
    ensures TfSum(FromStored(tokens), terms) <= |tokens|
  {
    if tokens == [] {
      NothingStored(terms);
    } else {
      ShorterStored(tokens, terms);
      StoredSum(tokens[1..], terms);
    }
  }

  lemma {:induction false} NothingStored(terms: seq<string>)
    ensures TfSum(FromStored([]), terms) == 0
  {
    if terms != [] {
      NothingStored(terms[1..]);
    }
  }

  lemma {:induction false} FilteredSum(d: Document, valid: string -> bool, terms: seq<string>)
    ensures TfSum(Filtered(d, valid), terms) <= TfSum(d, terms)
  {
    if terms != [] {
      FilteredSum(d, valid, terms[1..]);
    }
  }

  /** A document rebuilt from its stored text has fitting counts, and filtering keeps them fitting. */
  lemma StoredCountsFit(tokens: seq<string>, valid: string -> bool)
    ensures CountsFit(Filtered(FromStored(tokens), valid))
  {
    forall terms | Distinct(terms) ensures TfSum(Filtered(FromStored(tokens), valid), terms) <= |tokens| {
      FilteredSum(FromStored(tokens), valid, terms);
      StoredSum(tokens, terms);
    }
  }

  function CtfSum(c: Collection, terms: seq<string>): int {
    if terms == [] then 0
    else (if c.ctf(terms[0]) > 0 then c.ctf(terms[0]) else 0) + CtfSum(c, terms[1..])
  }

  ghost predicate CollectionFits(c: Collection) {
    forall terms :: Distinct(terms) ==> CtfSum(c, terms) <= c.length
  }

  // ----- Document weights

  function Positive(score: real): real { if score > 0.0 then score else 0.0 }

  function PositiveSum(scores: seq<real>): real {
    if scores == [] then 0.0 else PositiveSum(scores[..|scores| - 1]) + Positive(scores[|scores| - 1])
  }

  function DocWeights(scores: seq<real>): (ws: seq<real>)
    ensures |ws| == |scores|
  {
    var total := PositiveSum(scores);
    if total > 0.0 then seq(|scores|, i requires 0 <= i < |scores| => Positive(scores[i]) / total)
    else if scores == [] then []
    else seq(|scores|, i => 1.0 / |scores| as real)
  }

  function Sum(ws: seq<real>): real {
    if ws == [] then 0.0 else Sum(ws[..|ws| - 1]) + ws[|ws| - 1]
  }

  lemma {:induction false} ScaledSum(scores: seq<real>, total: real, ws: seq<real>)
    requires total > 0.0 && |ws| == |scores| && forall i :: 0 <= i < |ws| ==> ws[i] == Positive(scores[i]) / total
    ensures Sum(ws) == PositiveSum(scores) / total
  {
    if scores != [] {
      var last := |scores| - 1;
      ScaledSum(scores[..last], total, ws[..last]);
      AddQuotients(PositiveSum(scores[..last]), Positive(scores[last]), total);
    }
  }

  lemma AddQuotients(a: real, b: real, c: real)
    requires c != 0.0
    ensures a / c + b / c == (a + b) / c
  {
  }

  lemma {:induction false} ConstantSum(ws: seq<real>, w: real)
    requires forall i :: 0 <= i < |ws| ==> ws[i] == w
    ensures Sum(ws) == |ws| as real * w
  {
    if ws != [] {
      ConstantSum(ws[..|ws| - 1], w);
    }
  }

  lemma {:induction false} PositiveSumGrows(scores: seq<real>)
    ensures PositiveSum(scores) >= 0.0
  {
    if scores != [] {
      PositiveSumGrows(scores[..|scores| - 1]);
    }
  }

  lemma QuotientSign(a: real, b: real)
    requires a >= 0.0 && b > 0.0
    ensures a / b >= 0.0 && b / b == 1.0
  {
  }

  /** The weights of the feedback documents are a probability distribution, whatever the scores. */
  lemma DocWeightsSumToOne(scores: seq<real>)
    requires scores != []
    ensures Sum(DocWeights(scores)) == 1.0
    ensures forall i :: 0 <= i < |scores| ==> DocWeights(scores)[i] >= 0.0
  {
    var total, ws := PositiveSum(scores), DocWeights(scores);
    PositiveSumGrows(scores);
    if total > 0.0 {
      ScaledSum(scores, total, ws);
      QuotientSign(total, total);
      forall i | 0 <= i < |scores| ensures ws[i] >= 0.0 {
        QuotientSign(Positive(scores[i]), total);
      }
    } else {
      ConstantSum(ws, 1.0 / |scores| as real);
      QuotientSign(1.0, |scores| as real);
    }
  }

  ghost predicate SomePositive(scores: seq<real>) {
    exists i :: 0 <= i < |scores| && scores[i] > 0.0
  }

  lemma {:induction false} PositiveTotal(scores: seq<real>)
    ensures PositiveSum(scores) > 0.0 <==> SomePositive(scores)
  {
    if scores != [] {
      var front := scores[..|scores| - 1];
      PositiveTotal(front);
      PositiveSumGrows(front);
      assert forall i :: 0 <= i < |front| ==> front[i] == scores[i];
    }
  }

  /**
   The weights are in the ratio of the scores, those that are not positive counting as 0; if none is positive all
   weights are equal.
   */
  lemma WeightsAreProportional(scores: seq<real>, i: nat, j: nat)
    requires i < |scores| && j < |scores|
    ensures var ws := DocWeights(scores);
            && (SomePositive(scores) && scores[i] <= 0.0 ==> ws[i] == 0.0)
            && (scores[i] > 0.0 && scores[j] > 0.0 ==> ws[i] * scores[j] == ws[j] * scores[i])
            && (scores[i] > 0.0 ==> ws[i] > 0.0)
            && (!SomePositive(scores) ==> ws[i] == ws[j] && ws[i] * |scores| as real == 1.0)
  {
    hide PositiveSum;
    PositiveTotal(scores);
    if SomePositive(scores) {
      Crossed(Positive(scores[i]), Positive(scores[j]), PositiveSum(scores));
    } else {
      QuotientBack(1.0, |scores| as real);
      assert !(scores[i] > 0.0);
    }
  }

  lemma QuotientBack(x: real, y: real)
    requires y != 0.0
    ensures x / y * y == x
  {
  }

  lemma Crossed(x: real, y: real, total: real)
    requires total > 0.0
    ensures x / total * y == y / total * x
    ensures x == 0.0 ==> x / total == 0.0
    ensures x > 0.0 ==> x / total > 0.0
  {
    var p, q := x / total, y / total;
    assert p * total == x && q * total == y;
    assert p * (q * total) == q * (p * total);
  }

  // ----- Term scores

  function Background(c: Collection, t: string): real {
    if c.length > 0 then c.ctf(t) as real / c.length as real else 0.0
  }

  function Smoothed(c: Collection, mu: real, d: Document, t: string): real
    requires mu >= 0.0 && d.length > 0
  {
    (Tf(d, t) as real + mu * Background(c, t)) / (d.length as real + mu)
  }

  function Part(c: Collection, mu: real, d: Document, w: real, t: string): real
    requires mu >= 0.0
  {
    if d.length > 0 then Smoothed(c, mu, d, t) * w else 0.0
  }

  function Mixture(c: Collection, mu: real, docs: seq<Document>, ws: seq<real>, t: string): real
    requires mu >= 0.0 && |docs| == |ws|
  {
    if docs == [] then 0.0
    else
      var last := |docs| - 1;
      Mixture(c, mu, docs[..last], ws[..last], t) + Part(c, mu, docs[last], ws[last], t)
  }

  function Rm3Weight(c: Collection, mu: real, docs: seq<Document>, ws: seq<real>, t: string): real
    requires mu >= 0.0 && |docs| == |ws|
  {
    if c.ctf(t) <= 0 || c.length <= 0 then 0.0 else Mixture(c, mu, docs, ws, t)
  }

  /**
   What one more document adds to the score of a term that is scored: times the smoothed length and the length of
   the collection it is the document's weight times its count, plus mu, in collection counts.
   */
  lemma DocumentAddsExactly(c: Collection, mu: real, docs: seq<Document>, ws: seq<real>, d: Document, w: real,
      t: string)
    requires mu >= 0.0 && |docs| == |ws| && c.ctf(t) > 0 && c.length > 0
    ensures var added := Rm3Weight(c, mu, docs + [d], ws + [w], t) - Rm3Weight(c, mu, docs, ws, t);
            if d.length == 0 then added == 0.0
            else added * (d.length as real + mu) * c.length as real
                 == w * (Tf(d, t) as real * c.length as real + mu * c.ctf(t) as real)
    ensures Rm3Weight(c, mu, [], [], t) == 0.0
  {
    assert (docs + [d])[..|docs|] == docs && (ws + [w])[..|ws|] == ws;
    if d.length > 0 {
      var b, n, l := Background(c, t), c.length as real, d.length as real + mu;
      Cancel(c.ctf(t) as real, n);
      Cancel(Tf(d, t) as real + mu * b, l);
      Cleared(Smoothed(c, mu, d, t), w, l, n, Tf(d, t) as real, mu, b, c.ctf(t) as real);
    }
  }

  lemma Cleared(s: real, w: real, l: real, n: real, tf: real, mu: real, b: real, ctf: real)
    requires s * l == tf + mu * b && b * n == ctf
    ensures s * w * l * n == w * (tf * n + mu * ctf)
  {
    assert s * w * l * n == w * ((s * l) * n);
    assert (tf + mu * b) * n == tf * n + mu * (b * n);
  }

  /** The scores of a list of terms, added up. */
  function Mass(c: Collection, mu: real, docs: seq<Document>, ws: seq<real>, terms: seq<string>): real
    requires mu >= 0.0 && |docs| == |ws|
  {
    if terms == [] then 0.0 else Rm3Weight(c, mu, docs, ws, terms[0]) + Mass(c, mu, docs, ws, terms[1..])
  }

  /** What one document contributes to the terms that are scored at all. */
  function DocumentMass(c: Collection, mu: real, d: Document, terms: seq<string>): real
    requires mu >= 0.0 && d.length > 0
  {
    if terms == [] then 0.0
    else (if c.ctf(terms[0]) > 0 then Smoothed(c, mu, d, terms[0]) else 0.0) + DocumentMass(c, mu, d, terms[1..])
  }

  function BackgroundMass(c: Collection, terms: seq<string>): real {
    if terms == [] then 0.0
    else (if c.ctf(terms[0]) > 0 then Background(c, terms[0]) else 0.0) + BackgroundMass(c, terms[1..])
  }

  /** Adding up over the terms first and over the documents first gives the same. */
  lemma {:induction false} SwapSums(c: Collection, mu: real, docs: seq<Document>, ws: seq<real>, terms: seq<string>)
    requires mu >= 0.0 && |docs| == |ws| && docs != [] && c.length > 0
    ensures var last := |docs| - 1;
            Mass(c, mu, docs, ws, terms)
            == Mass(c, mu, docs[..last], ws[..last], terms)
               + (if docs[last].length > 0 then DocumentMass(c, mu, docs[last], terms) * ws[last] else 0.0)
  {
    hide Smoothed;
    if terms != [] {
      SwapSums(c, mu, docs, ws, terms[1..]);
      var last := |docs| - 1;
      if docs[last].length > 0 && c.ctf(terms[0]) > 0 {
        Distribute(Smoothed(c, mu, docs[last], terms[0]), DocumentMass(c, mu, docs[last], terms[1..]), ws[last]);
      }
    }
  }

  lemma Distribute(a: real, b: real, w: real)
    ensures (a + b) * w == a * w + b * w
  {
  }

  lemma {:induction false} BackgroundIsCtf(c: Collection, terms: seq<string>)
    requires c.length > 0
    ensures BackgroundMass(c, terms) * c.length as real == CtfSum(c, terms) as real
  {
    if terms != [] {
      BackgroundIsCtf(c, terms[1..]);
      var n := c.length as real;
      Distribute(if c.ctf(terms[0]) > 0 then Background(c, terms[0]) else 0.0, BackgroundMass(c, terms[1..]), n);
      Cancel(c.ctf(terms[0]) as real, n);
    }
  }

  lemma Cancel(a: real, b: real)
    requires b != 0.0
    ensures a / b * b == a
  {
  }

  /** The counts in one document of the terms that are scored at all. */
  function ScoredTf(c: Collection, d: Document, terms: seq<string>): nat {
    if terms == [] then 0
    else (if c.ctf(terms[0]) > 0 then Tf(d, terms[0]) else 0) + ScoredTf(c, d, terms[1..])
  }

  lemma {:induction false} ScoredWithinAll(c: Collection, d: Document, terms: seq<string>)
    ensures ScoredTf(c, d, terms) <= TfSum(d, terms)
  {
    if terms != [] {
      ScoredWithinAll(c, d, terms[1..]);
    }
  }

  lemma {:induction false} DocumentMassExact(c: Collection, mu: real, d: Document, terms: seq<string>)
    requires mu >= 0.0 && d.length > 0
    ensures DocumentMass(c, mu, d, terms) * (d.length as real + mu)
            == ScoredTf(c, d, terms) as real + mu * BackgroundMass(c, terms)
  {
    hide Background, Tf, Smoothed;
    if terms != [] {
      var t := terms[0];
      DocumentMassExact(c, mu, d, terms[1..]);
      if c.ctf(t) > 0 {
        SmoothedExact(c, mu, d, t);
        Together(Smoothed(c, mu, d, t), DocumentMass(c, mu, d, terms[1..]), d.length as real + mu, Tf(d, t) as real,
                 ScoredTf(c, d, terms[1..]) as real, mu, Background(c, t), BackgroundMass(c, terms[1..]));
      }
    }
  }

  lemma SmoothedExact(c: Collection, mu: real, d: Document, t: string)
    requires mu >= 0.0 && d.length > 0
    ensures Smoothed(c, mu, d, t) * (d.length as real + mu) == Tf(d, t) as real + mu * Background(c, t)
  {
    Cancel(Tf(d, t) as real + mu * Background(c, t), d.length as real + mu);
  }

  lemma Together(s: real, rest: real, n: real, tf: real, tfRest: real, mu: real, b: real, bRest: real)
    requires s * n == tf + mu * b && rest * n == tfRest + mu * bRest
    ensures (s + rest) * n == (tf + tfRest) + mu * (b + bRest)
  {
    Distribute(s, rest, n);
    Distribute(b, bRest, mu);
  }

  lemma AtMost(x: real, y: real, n: real)
    requires n > 0.0 && x * n <= y * n
    ensures x <= y
  {
  }

  lemma QuotientAtMostOne(x: real, tf: real, length: real, mu: real, b: real)
    requires length > 0.0 && mu >= 0.0 && tf <= length && b <= 1.0
    requires x * (length + mu) == tf + mu * b
    ensures x <= 1.0
  {
    Scaled(b, 1.0, mu);
    AtMost(x, 1.0, length + mu);
  }

  lemma Scaled(x: real, y: real, n: real)
    requires n >= 0.0 && x <= y
    ensures n * x <= n * y
  {
  }

  lemma DocumentMassAtMostOne(c: Collection, mu: real, d: Document, terms: seq<string>)
    requires mu >= 0.0 && d.length > 0 && c.length > 0
    requires Distinct(terms) && CountsFit(d) && CollectionFits(c)
    ensures DocumentMass(c, mu, d, terms) <= 1.0
  {
    hide DocumentMass, BackgroundMass, ScoredTf, TfSum, CtfSum;
    var b := BackgroundMass(c, terms);
    BackgroundIsCtf(c, terms);
    AtMost(b, 1.0, c.length as real);
    DocumentMassExact(c, mu, d, terms);
    ScoredWithinAll(c, d, terms);
    assert ScoredTf(c, d, terms) <= d.length by { assert TfSum(d, terms) <= d.length; }
    QuotientAtMostOne(DocumentMass(c, mu, d, terms), ScoredTf(c, d, terms) as real, d.length as real, mu, b);
  }

  lemma {:induction false} MassBelowWeights(c: Collection, mu: real, docs: seq<Document>, ws: seq<real>,
      terms: seq<string>)
    requires mu >= 0.0 && |docs| == |ws| && Distinct(terms) && CollectionFits(c) && c.length > 0
    requires forall i :: 0 <= i < |docs| ==> CountsFit(docs[i]) && ws[i] >= 0.0
    ensures Mass(c, mu, docs, ws, terms) <= Sum(ws)
  {
    hide CountsFit, CollectionFits, Distinct;
    if docs == [] {
      NoDocumentsNoMass(c, mu, terms);
    } else {
      var last := |docs| - 1;
      MassBelowWeights(c, mu, docs[..last], ws[..last], terms);
      SwapSums(c, mu, docs, ws, terms);
      if docs[last].length > 0 {
        DocumentMassAtMostOne(c, mu, docs[last], terms);
        assert DocumentMass(c, mu, docs[last], terms) * ws[last] <= 1.0 * ws[last];
      }
    }
  }

  lemma {:induction false} NoDocumentsNoMass(c: Collection, mu: real, terms: seq<string>)
    requires mu >= 0.0
    ensures Mass(c, mu, [], [], terms) == 0.0
  {
    if terms != [] {
      NoDocumentsNoMass(c, mu, terms[1..]);
    }
  }

  lemma {:induction false} NoCollectionNoMass(c: Collection, mu: real, docs: seq<Document>, ws: seq<real>,
      terms: seq<string>)
    requires mu >= 0.0 && |docs| == |ws| && c.length <= 0
    ensures Mass(c, mu, docs, ws, terms) == 0.0
  {
    if terms != [] {
      NoCollectionNoMass(c, mu, docs, ws, terms[1..]);
    }
  }

  /** The scores of all feedback terms add up to at most one, whatever the scores of the feedback documents. */
  lemma ScoresAreSubProbability(c: Collection, mu: real, docs: seq<Document>, scores: seq<real>, terms: seq<string>)
    requires mu >= 0.0 && |docs| == |scores| && Distinct(terms) && CollectionFits(c)
    requires forall i :: 0 <= i < |docs| ==> CountsFit(docs[i])
    ensures Mass(c, mu, docs, DocWeights(scores), terms) <= 1.0
  {
    hide CountsFit, CollectionFits, Distinct, DocWeights, Mass;
    if c.length <= 0 {
      NoCollectionNoMass(c, mu, docs, DocWeights(scores), terms);
    } else if scores == [] {
      MassOfNothing(c, mu, docs, DocWeights(scores), terms);
    } else {
      DocWeightsSumToOne(scores);
      MassBelowWeights(c, mu, docs, DocWeights(scores), terms);
    }
  }

  lemma MassOfNothing(c: Collection, mu: real, docs: seq<Document>, ws: seq<real>, terms: seq<string>)
    requires mu >= 0.0 && |docs| == |ws| == 0
    ensures Mass(c, mu, docs, ws, terms) == 0.0
  {
    NoDocumentsNoMass(c, mu, terms);
  }

  /** The document's counts of the scored terms make up its whole length. */
  predicate Covered(c: Collection, d: Document, terms: seq<string>) {
    d.length > 0 && ScoredTf(c, d, terms) == d.length
  }

  lemma DocumentMassIsOne(c: Collection, mu: real, d: Document, terms: seq<string>)
    requires mu >= 0.0 && c.length > 0 && CtfSum(c, terms) == c.length && Covered(c, d, terms)
    ensures DocumentMass(c, mu, d, terms) == 1.0
  {
    hide DocumentMass, BackgroundMass, ScoredTf, CtfSum;
    var b := BackgroundMass(c, terms);
    BackgroundIsCtf(c, terms);
    AtMost(b, 1.0, c.length as real);
    AtMost(1.0, b, c.length as real);
    DocumentMassExact(c, mu, d, terms);
    AtMost(DocumentMass(c, mu, d, terms), 1.0, d.length as real + mu);
    AtMost(1.0, DocumentMass(c, mu, d, terms), d.length as real + mu);
  }

  /** No mass is lost when the terms make up every document and the collection: the scores are a distribution. */
  lemma {:induction false} MassIsWeights(c: Collection, mu: real, docs: seq<Document>, ws: seq<real>,
      terms: seq<string>)
    requires mu >= 0.0 && |docs| == |ws| && c.length > 0 && CtfSum(c, terms) == c.length
    requires forall i :: 0 <= i < |docs| ==> Covered(c, docs[i], terms)
    ensures Mass(c, mu, docs, ws, terms) == Sum(ws)
  {
    hide ScoredTf, CtfSum, Mass, DocumentMass;
    if docs == [] {
      MassOfNothing(c, mu, docs, ws, terms);
    } else {
      var last := |docs| - 1;
      MassIsWeights(c, mu, docs[..last], ws[..last], terms);
      SwapSums(c, mu, docs, ws, terms);
      DocumentMassIsOne(c, mu, docs[last], terms);
    }
  }

  // ----- The program

  method CalculateRm3Weight(c: Collection, mu: real, docs: seq<Document>, ws: seq<real>, t: string)
    returns (score: real)
    requires mu >= 0.0 && |docs| == |ws|
    ensures score == Rm3Weight(c, mu, docs, ws, t)
  {
    hide Part, Smoothed, Background;
    if c.ctf(t) <= 0 || c.length <= 0 {
      return 0.0;
    }
    score := 0.0;
    for i := 0 to |docs|
      invariant score == Mixture(c, mu, docs[..i], ws[..i], t)
    {
      assert docs[..i + 1][..i] == docs[..i] && ws[..i + 1][..i] == ws[..i];
      var p := PartOf(c, mu, docs[i], ws[i], t);
      score := score + p;
    }
    assert docs[..|docs|] == docs && ws[..|docs|] == ws;
  }

  method PartOf(c: Collection, mu: real, d: Document, w: real, t: string) returns (part: real)
    requires mu >= 0.0 && c.length > 0
    ensures part == Part(c, mu, d, w, t)
  {
    part := 0.0;
    if d.length > 0 {
      var background := c.ctf(t) as real / c.length as real;
      part := (Tf(d, t) as real + mu * background) / (d.length as real + mu) * w;
    }
  }

  /**
   The feedback vocabulary, in whatever order the set of its terms is visited, and the terms with a positive
   score.
   */
  method ScoreTerms(c: Collection, mu: real, docs: seq<Document>, scores: seq<real>, vocabulary: seq<string>)
    returns (termScores: map<string, real>)
    requires mu >= 0.0 && |docs| == |scores|
    requires Distinct(vocabulary)
    ensures forall t :: t in termScores <==> t in vocabulary && Rm3Weight(c, mu, docs, DocWeights(scores), t) > 0.0
    ensures forall t :: t in termScores ==> termScores[t] == Rm3Weight(c, mu, docs, DocWeights(scores), t)
  {
    hide Rm3Weight, DocWeights;
    termScores := map[];
    var weights := DocWeights(scores);
    for i := 0 to |vocabulary|
      invariant forall t :: t in termScores <==> t in vocabulary[..i] && Rm3Weight(c, mu, docs, weights, t) > 0.0
      invariant forall t :: t in termScores ==> termScores[t] == Rm3Weight(c, mu, docs, weights, t)
    {
      var score := CalculateRm3Weight(c, mu, docs, weights, vocabulary[i]);
      assert vocabulary[..i + 1] == vocabulary[..i] + [vocabulary[i]];
      if score > 0.0 {
        termScores := termScores[vocabulary[i] := score];
      }
    }
    assert vocabulary[..|vocabulary|] == vocabulary;
  }
}
