/** What the score of a SCORE node is: its BM25 equation, and how it orders documents and terms. */
module LeafScores {
  import opened Wrappers
  import opened QueryTree
  import opened Semantics

  /** A score operator over an inverted list. */
  predicate Leaf(q: Qry) {
    q.Node? && q.op.SCORE? && q.args != [] && q.args[0].IsIop()
  }

  /** How often the leaf's list names a document, and how long the document is in the list's field. */
  function Tf(q: Qry, ix: Index, d: int): real
    requires Leaf(q)
  {
    |Positions(q.args[0], ix, d)| as real
  }

  function Length(q: Qry, ix: Index, d: int): real
    requires Leaf(q)
  {
    ix.fieldLength(FieldName(q.args[0]), d) as real
  }

  /** The average length of a document in the leaf's field; 0 where no document has the field. */
  predicate IsAverage(q: Qry, ix: Index, avg: real)
    requires Leaf(q)
  {
    var f := FieldName(q.args[0]);
    if ix.docCount(f) > 0 then avg * ix.docCount(f) as real == ix.sumOfFieldLengths(f) as real else avg == 0.0
  }

  /** How rare the leaf's list is: documents of the collection, plus 1, for each document with positions, plus 1/2. */
  ghost predicate IsRarity(q: Qry, ix: Index, x: real)
    requires Leaf(q)
  {
    var df := |set d | 0 <= d < ix.numDocs && Positions(q.args[0], ix, d) != []|;
    x * (df as real + 0.5) == (ix.numDocs + 1) as real
  }

  /** What a term frequency is weighed against: k1, moved by b from the average length to the document's. */
  predicate IsNorm(m: Model, avg: real, length: real, k: real)
    requires m.BM25?
  {
    if avg == 0.0 then k == m.k1 else k * avg == m.k1 * ((1.0 - m.b) * avg + m.b * length)
  }

  /** Parameters and numbers there always are, and only one of each. */
  lemma Given(q: Qry, ix: Index, m: Model, d: int) returns (avg: real, x: real, k: real)
    requires Leaf(q) && m.BM25?
    ensures IsAverage(q, ix, avg) && IsRarity(q, ix, x) && IsNorm(m, avg, Length(q, ix, d), k)
    ensures avg == AvgDocLen(ix, FieldName(q.args[0])) && ix.log(x) == Idf(ix, Df(q.args[0], ix))
    ensures k == if avg == 0.0 then m.k1 else m.k1 * ((1.0 - m.b) + m.b * (Length(q, ix, d) / avg))
  {
    hide Positions, IsAverage, IsRarity, IsNorm, FieldName, Df, AvgDocLen, Idf;
    avg := AvgDocLen(ix, FieldName(q.args[0]));
    x := (ix.numDocs + 1) as real / (Df(q.args[0], ix) as real + 0.5);
    k := if avg == 0.0 then m.k1 else m.k1 * ((1.0 - m.b) + m.b * (Length(q, ix, d) / avg));
    GivenAverage(q, ix);
    GivenRarity(q, ix);
    GivenNorm(m, avg, Length(q, ix, d));
  }

  lemma GivenAverage(q: Qry, ix: Index)
    requires Leaf(q)
    ensures IsAverage(q, ix, AvgDocLen(ix, FieldName(q.args[0])))
  {
    hide FieldName;
    var f := FieldName(q.args[0]);
    if ix.docCount(f) > 0 {
      QuotientBack(ix.sumOfFieldLengths(f) as real, ix.docCount(f) as real);
    }
  }

  lemma QuotientBack(x: real, y: real)
    requires y != 0.0
    ensures x / y * y == x
  {
  }

  lemma GivenRarity(q: Qry, ix: Index)
    requires Leaf(q)
    ensures var x := (ix.numDocs + 1) as real / (Df(q.args[0], ix) as real + 0.5);
            IsRarity(q, ix, x) && ix.log(x) == Idf(ix, Df(q.args[0], ix))
  {
    hide Positions;
    assert Docs(q.args[0], ix) == set d | 0 <= d < ix.numDocs && Positions(q.args[0], ix, d) != [];
    QuotientBack((ix.numDocs + 1) as real, Df(q.args[0], ix) as real + 0.5);
  }

  lemma GivenNorm(m: Model, avg: real, length: real)
    requires m.BM25?
    ensures IsNorm(m, avg, length, if avg == 0.0 then m.k1 else m.k1 * ((1.0 - m.b) + m.b * (length / avg)))
  {
    if avg != 0.0 {
      NormTimes(m.k1, m.b, length, avg);
    }
  }

  lemma NormTimes(k1: real, b: real, length: real, avg: real)
    requires avg != 0.0
    ensures k1 * ((1.0 - b) + b * (length / avg)) * avg == k1 * ((1.0 - b) * avg + b * length)
  {
    var r := length / avg;
    assert r * avg == length;
    assert ((1.0 - b) + b * r) * avg == (1.0 - b) * avg + b * (r * avg);
  }

  lemma OnlyFactor(x: real, y: real, c: real)
    requires x * c == y * c && c != 0.0
    ensures x == y
  {
  }

  /** Each of the three numbers is determined by its equation. */
  lemma GivenOnce(q: Qry, ix: Index, m: Model, length: real, avg: real, avg': real, x: real, x': real, k: real,
      k': real)
    requires Leaf(q) && m.BM25?
    requires IsAverage(q, ix, avg) && IsAverage(q, ix, avg') && IsRarity(q, ix, x) && IsRarity(q, ix, x')
    requires IsNorm(m, avg, length, k) && IsNorm(m, avg', length, k')
    ensures avg == avg' && x == x' && k == k'
  {
    var f := FieldName(q.args[0]);
    if ix.docCount(f) > 0 {
      OnlyFactor(avg, avg', ix.docCount(f) as real);
    }
    OnlyFactor(x, x', |set d | 0 <= d < ix.numDocs && Positions(q.args[0], ix, d) != []| as real + 0.5);
    if avg != 0.0 {
      OnlyFactor(k, k', avg);
    }
  }

  lemma LeafScored(q: Qry, ix: Index, m: Model, d: int)
    requires Leaf(q)
    ensures Score(q, ix, m, d) == LeafScore(q.args[0], ix, m, d)
  {
  }

  /**
   The BM25 score of a document: it times (tf + k) is the logarithm of the rarity times tf, and there is none
   exactly when tf + k is 0.
   */
  lemma Bm25Equation(q: Qry, ix: Index, m: Model, d: int, avg: real, x: real, k: real)
    requires Leaf(q) && m.BM25?
    requires IsAverage(q, ix, avg) && IsRarity(q, ix, x) && IsNorm(m, avg, Length(q, ix, d), k)
    ensures Score(q, ix, m, d).None? <==> Tf(q, ix, d) + k == 0.0
    ensures forall s :: Score(q, ix, m, d) == Some(s) ==> s * (Tf(q, ix, d) + k) == ix.log(x) * Tf(q, ix, d)
  {
    hide Positions;
    var avg', x', k' := Given(q, ix, m, d);
    GivenOnce(q, ix, m, Length(q, ix, d), avg, avg', x, x', k, k');
    LeafScored(q, ix, m, d);
    hide IsAverage, IsRarity, IsNorm, Score;
    var tf, idf := Tf(q, ix, d), ix.log(x);
    if tf + k != 0.0 {
      QuotientTimes(idf, tf, tf + k);
    }
  }

  lemma QuotientTimes(x: real, y: real, z: real)
    requires z != 0.0
    ensures x * (y / z) * z == x * y
  {
    var r := y / z;
    assert r * z == y;
    assert x * r * z == x * (r * z);
  }

  // ----- When every match has a score

  /** BM25 parameters as they are meant to be. */
  predicate ParametersInRange(m: Model) {
    m.BM25? ==> m.k1 >= 0.0 && 0.0 <= m.b <= 1.0
  }

  ghost predicate LengthsInRange(ix: Index) {
    (forall f, d :: ix.fieldLength(f, d) >= 0) && (forall f :: ix.sumOfFieldLengths(f) >= 0)
  }

  lemma LeafHasScore(q: Qry, ix: Index, m: Model, d: int)
    requires ParametersInRange(m) && LengthsInRange(ix) && Positions(q, ix, d) != []
    ensures LeafScore(q, ix, m, d).Some?
  {
    hide Positions;
    if m.BM25? {
      var f := FieldName(q);
      var avg, length := AvgDocLen(ix, f), ix.fieldLength(f, d) as real;
      if avg != 0.0 {
        AverageIsPositive(ix.sumOfFieldLengths(f), ix.docCount(f));
        NormNotNegative(m.k1, m.b, length, avg);
      }
    }
  }

  lemma AverageIsPositive(total: int, count: int)
    requires total >= 0 && count > 0
    ensures total as real / count as real >= 0.0
  {
  }

  lemma NormNotNegative(k1: real, b: real, length: real, avg: real)
    requires k1 >= 0.0 && 0.0 <= b <= 1.0 && length >= 0.0 && avg > 0.0
    ensures k1 * ((1.0 - b) + b * (length / avg)) >= 0.0
  {
    var r := length / avg;
    assert r >= 0.0;
    ProductNotNegative(b, r);
    ProductNotNegative(k1, (1.0 - b) + b * r);
  }

  lemma ProductNotNegative(x: real, y: real)
    requires x >= 0.0 && y >= 0.0
    ensures x * y >= 0.0
  {
  }

  // ----- What the score orders by

  /** As much of a logarithm as ranking needs. */
  ghost predicate IsLogarithm(log: real -> real) {
    log(1.0) == 0.0 && forall x, y :: 0.0 < x < y ==> log(x) < log(y)
  }

  lemma DocsWithin(q: Qry, ix: Index)
    ensures Df(q, ix) <= ix.numDocs
  {
    hide Positions;
    AtMost(Docs(q, ix), ix.numDocs);
  }

  lemma {:induction false} AtMost(s: set<int>, n: nat)
    ensures (forall d :: d in s ==> 0 <= d < n) ==> |s| <= n
  {
    if s != {} && forall d :: d in s ==> 0 <= d < n {
      var d :| d in s;
      var rest := s - {n - 1};
      AtMost(rest, n - 1);
      assert s == if n - 1 in s then rest + {n - 1} else rest;
    }
  }

  lemma TimesOrders(x: real, y: real, c: real)
    requires c > 0.0
    ensures x * c < y * c <==> x < y
  {
    if x < y {
      assert (y - x) * c > 0.0;
    } else {
      assert (x - y) * c >= 0.0;
    }
  }

  /** A rarity is more than 1, so its logarithm is positive; and a list of fewer documents is rarer. */
  lemma RarityOrders(p: Qry, q: Qry, ix: Index, x: real, y: real)
    requires Leaf(p) && Leaf(q) && IsRarity(p, ix, x) && IsRarity(q, ix, y) && IsLogarithm(ix.log)
    ensures ix.log(x) > 0.0
    ensures Df(p.args[0], ix) < Df(q.args[0], ix) <==> ix.log(x) > ix.log(y)
  {
    hide Positions;
    DocsWithin(p.args[0], ix);
    DocsWithin(q.args[0], ix);
    RarityAbove(Df(p.args[0], ix), ix.numDocs, x);
    RarityAbove(Df(q.args[0], ix), ix.numDocs, y);
    RarityFalls(Df(p.args[0], ix), Df(q.args[0], ix), x, y, (ix.numDocs + 1) as real);
    RarityFalls(Df(q.args[0], ix), Df(p.args[0], ix), y, x, (ix.numDocs + 1) as real);
  }

  lemma RarityAbove(df: nat, n: nat, x: real)
    requires df <= n && x * (df as real + 0.5) == (n + 1) as real
    ensures x > 1.0
  {
    TimesOrders(1.0, x, df as real + 0.5);
  }

  lemma RarityFalls(a: nat, b: nat, x: real, y: real, n: real)
    requires x * (a as real + 0.5) == n && y * (b as real + 0.5) == n && y > 0.0
    ensures a < b ==> x > y
    ensures a == b ==> x == y
  {
    if a == b {
      OnlyFactor(x, y, a as real + 0.5);
    } else if a < b {
      RarityFallsStrictly(a as real + 0.5, b as real + 0.5, x, y, n);
    }
  }

  lemma RarityFallsStrictly(p: real, q: real, x: real, y: real, n: real)
    requires 0.0 < p < q && y > 0.0 && x * p == n && y * q == n
    ensures x > y
  {
    TimesOrders(p, q, y);
    Commutes(y, p);
    Commutes(y, q);
    TimesOrders(y, x, p);
  }

  lemma Commutes(x: real, y: real)
    ensures x * y == y * x
  {
  }

  // ----- Documents and terms in order

  lemma NormRange(m: Model, avg: real, length: real, k: real)
    requires m.BM25? && ParametersInRange(m) && avg >= 0.0 && length >= 0.0 && IsNorm(m, avg, length, k)
    ensures k >= 0.0
    ensures avg == 0.0 || length == avg ==> k == m.k1
    ensures k == 0.0 <==> m.k1 == 0.0 || (avg > 0.0 && m.b == 1.0 && length == 0.0)
  {
    if avg > 0.0 {
      var weight := (1.0 - m.b) * avg + m.b * length;
      ProductNotNegative(1.0 - m.b, avg);
      ProductNotNegative(m.b, length);
      ProductNotNegative(m.k1, weight);
      TimesOrders(k, 0.0, avg);
      if length == avg {
        assert weight == avg;
        OnlyFactor(k, m.k1, avg);
      }
      WeightIsZero(m.b, avg, length);
      ZeroProduct(m.k1, weight);
      ZeroProduct(k, avg);
    }
  }

  lemma ZeroProduct(x: real, y: real)
    ensures x * y == 0.0 <==> x == 0.0 || y == 0.0
  {
  }

  lemma WeightIsZero(b: real, avg: real, length: real)
    requires 0.0 <= b <= 1.0 && avg > 0.0 && length >= 0.0
    ensures (1.0 - b) * avg + b * length == 0.0 <==> b == 1.0 && length == 0.0
  {
    ProductNotNegative(1.0 - b, avg);
    ProductNotNegative(b, length);
    ZeroProduct(1.0 - b, avg);
    ZeroProduct(b, length);
  }

  /** The weight of a frequency grows with it, and falls with what it is weighed against. */
  lemma SaturationOrders(idf: real, tf: real, tf': real, k: real, k': real, s: real, s': real)
    requires idf > 0.0 && tf > 0.0 && tf' > 0.0 && k >= 0.0 && k' >= 0.0
    requires s * (tf + k) == idf * tf && s' * (tf' + k') == idf * tf'
    ensures s < s' <==> k' * tf < k * tf'
  {
    var c, c' := tf + k, tf' + k';
    assert c > 0.0 && c' > 0.0;
    TimesOrders(s, s', c);
    TimesOrders(s * c, s' * c, c');
    assert s * c * c' == idf * tf * c' && s' * c * c' == s' * c' * c == idf * tf' * c;
    assert idf * tf * c' == tf * c' * idf && idf * tf' * c == tf' * c * idf;
    TimesOrders(tf * c', tf' * c, idf);
    assert tf * c' == tf * tf' + k' * tf && tf' * c == tf * tf' + k * tf';
  }

  /** What a matching document's score is, with positive logarithm and parameters in range. */
  ghost predicate Weighed(q: Qry, ix: Index, m: Model, d: int, idf: real, k: real) {
    && Leaf(q) && Tf(q, ix, d) > 0.0 && idf > 0.0 && k >= 0.0
    && Score(q, ix, m, d).Some? && Score(q, ix, m, d).value * (Tf(q, ix, d) + k) == idf * Tf(q, ix, d)
  }

  predicate HasAverage(q: Qry, ix: Index)
    requires Leaf(q)
  {
    ix.docCount(FieldName(q.args[0])) > 0 && ix.sumOfFieldLengths(FieldName(q.args[0])) > 0
  }

  lemma MatchIsWeighed(q: Qry, ix: Index, m: Model, d: int) returns (avg: real, x: real, k: real)
    requires Leaf(q) && m.BM25? && ParametersInRange(m) && LengthsInRange(ix) && IsLogarithm(ix.log)
    requires Matches(q, ix, d)
    ensures avg >= 0.0 && (avg > 0.0 <==> HasAverage(q, ix))
    ensures IsAverage(q, ix, avg) && IsRarity(q, ix, x) && IsNorm(m, avg, Length(q, ix, d), k)
    ensures Weighed(q, ix, m, d, ix.log(x), k)
  {
    hide Positions, Matches, Score, IsAverage, IsRarity, IsNorm, ParametersInRange, LengthsInRange, IsLogarithm, Leaf;
    hide AvgDocLen, Idf, Df, FieldName, Tf, Length;
    avg, x, k := Given(q, ix, m, d);
    AverageNotNegative(q, ix, avg);
    MatchHasPositions(q, ix, d);
    NormRange(m, avg, Length(q, ix, d), k);
    RarityOrders(q, q, ix, x, x);
    Bm25Equation(q, ix, m, d, avg, x, k);
  }

  lemma AverageNotNegative(q: Qry, ix: Index, avg: real)
    requires Leaf(q) && IsAverage(q, ix, avg) && LengthsInRange(ix)
    ensures avg >= 0.0 && (avg > 0.0 <==> HasAverage(q, ix))
  {
    var f := FieldName(q.args[0]);
    if ix.docCount(f) > 0 {
      TimesOrders(avg, 0.0, ix.docCount(f) as real);
      TimesOrders(0.0, avg, ix.docCount(f) as real);
    }
  }

  lemma MatchHasPositions(q: Qry, ix: Index, d: int)
    requires Leaf(q) && Matches(q, ix, d)
    ensures Tf(q, ix, d) > 0.0
    ensures LengthsInRange(ix) ==> Length(q, ix, d) >= 0.0
  {
    hide Positions;
  }

  /**
   Of two matching documents of one length the one with more positions scores higher, unless k1 is 0 or, with an
   average length and b being 1, the length is 0: then positions do not count.
   */
  lemma MorePositionsScoreMore(q: Qry, ix: Index, m: Model, d: int, e: int)
    requires Leaf(q) && m.BM25? && ParametersInRange(m) && LengthsInRange(ix) && IsLogarithm(ix.log)
    requires Matches(q, ix, d) && Matches(q, ix, e) && Length(q, ix, d) == Length(q, ix, e)
    ensures Score(q, ix, m, d).Some? && Score(q, ix, m, e).Some?
    ensures Score(q, ix, m, d).value < Score(q, ix, m, e).value <==>
              && Tf(q, ix, d) < Tf(q, ix, e) && m.k1 > 0.0
              && (HasAverage(q, ix) ==> m.b < 1.0 || Length(q, ix, d) > 0.0)
  {
    hide Positions, Matches, Score, IsAverage, IsRarity, IsNorm, LengthsInRange, IsLogarithm, Leaf, Tf, Length;
    hide HasAverage;
    var avg, x, k := MatchIsWeighed(q, ix, m, d);
    var avg', x', k' := MatchIsWeighed(q, ix, m, e);
    GivenOnce(q, ix, m, Length(q, ix, d), avg, avg', x, x', k, k');
    MatchHasPositions(q, ix, d);
    NormRange(m, avg, Length(q, ix, d), k);
    SaturationOrders(ix.log(x), Tf(q, ix, d), Tf(q, ix, e), k, k, Score(q, ix, m, d).value, Score(q, ix, m, e).value);
    ScaledOrders(k, Tf(q, ix, d), Tf(q, ix, e));
  }

  /**
   Of two documents with equally many positions the shorter one scores higher, unless k1 or b is 0 or there is no
   average length: then lengths do not count.
   */
  lemma LongerScoresLess(q: Qry, ix: Index, m: Model, d: int, e: int)
    requires Leaf(q) && m.BM25? && ParametersInRange(m) && LengthsInRange(ix) && IsLogarithm(ix.log)
    requires Matches(q, ix, d) && Matches(q, ix, e) && Tf(q, ix, d) == Tf(q, ix, e)
    ensures Score(q, ix, m, d).Some? && Score(q, ix, m, e).Some?
    ensures Score(q, ix, m, e).value < Score(q, ix, m, d).value
            <==> Length(q, ix, d) < Length(q, ix, e) && HasAverage(q, ix) && m.k1 > 0.0 && m.b > 0.0
  {
    hide Positions, Matches, Score, IsAverage, IsRarity, IsNorm, LengthsInRange, IsLogarithm, Leaf, Tf, Length;
    hide HasAverage, ParametersInRange;
    var avg, x, k := MatchIsWeighed(q, ix, m, d);
    var avg', x', k' := MatchIsWeighed(q, ix, m, e);
    SameAverage(q, ix, avg, avg');
    SameRarity(q, ix, x, x');
    NormOrders(m, avg, Length(q, ix, d), Length(q, ix, e), k, k');
    SaturationOrders(ix.log(x), Tf(q, ix, e), Tf(q, ix, d), k', k, Score(q, ix, m, e).value, Score(q, ix, m, d).value);
    TimesOrders(k, k', Tf(q, ix, d));
  }

  lemma SameAverage(q: Qry, ix: Index, avg: real, avg': real)
    requires Leaf(q) && IsAverage(q, ix, avg) && IsAverage(q, ix, avg')
    ensures avg == avg'
  {
    if ix.docCount(FieldName(q.args[0])) > 0 {
      OnlyFactor(avg, avg', ix.docCount(FieldName(q.args[0])) as real);
    }
  }

  lemma SameRarity(q: Qry, ix: Index, x: real, x': real)
    requires Leaf(q) && IsRarity(q, ix, x) && IsRarity(q, ix, x')
    ensures x == x'
  {
    OnlyFactor(x, x', |set d | 0 <= d < ix.numDocs && Positions(q.args[0], ix, d) != []| as real + 0.5);
  }

  lemma NormOrders(m: Model, avg: real, length: real, length': real, k: real, k': real)
    requires m.BM25? && ParametersInRange(m) && avg >= 0.0
    requires IsNorm(m, avg, length, k) && IsNorm(m, avg, length', k')
    ensures k < k' <==> length < length' && avg > 0.0 && m.k1 > 0.0 && m.b > 0.0
  {
    if avg > 0.0 {
      PositiveNormOrders(m, avg, length, length', k, k');
    }
  }

  lemma PositiveNormOrders(m: Model, avg: real, length: real, length': real, k: real, k': real)
    requires m.BM25? && ParametersInRange(m) && avg > 0.0
    requires IsNorm(m, avg, length, k) && IsNorm(m, avg, length', k')
    ensures k < k' <==> m.k1 > 0.0 && m.b > 0.0 && length < length'
  {
    var base, share, share' := (1.0 - m.b) * avg, m.b * length, m.b * length';
    ScaledOrders(m.b, length, length');
    SumOrders(base, share, share');
    ScaledOrders(m.k1, base + share, base + share');
    ProductsOrder(k, k', avg, m.k1 * (base + share), m.k1 * (base + share'));
  }

  lemma SumOrders(base: real, x: real, y: real)
    ensures base + x < base + y <==> x < y
  {
  }

  lemma ProductsOrder(k: real, k': real, avg: real, x: real, x': real)
    requires avg > 0.0 && k * avg == x && k' * avg == x'
    ensures k < k' <==> x < x'
  {
    TimesOrders(k, k', avg);
  }

  lemma ScaledOrders(c: real, x: real, y: real)
    requires c >= 0.0
    ensures c * x < c * y <==> c > 0.0 && x < y
  {
    if c > 0.0 {
      TimesOrders(x, y, c);
      assert x * c == c * x && y * c == c * y;
    }
  }

  /** Of two lists of one field with equally many positions in a document the one in fewer documents scores higher. */
  lemma RarerScoresMore(p: Qry, q: Qry, ix: Index, m: Model, d: int)
    requires Leaf(p) && Leaf(q) && m.BM25? && ParametersInRange(m) && LengthsInRange(ix) && IsLogarithm(ix.log)
    requires Matches(p, ix, d) && Matches(q, ix, d) && FieldName(p.args[0]) == FieldName(q.args[0])
    requires Tf(p, ix, d) == Tf(q, ix, d)
    ensures Score(p, ix, m, d).Some? && Score(q, ix, m, d).Some?
    ensures Score(p, ix, m, d).value > Score(q, ix, m, d).value <==> Df(p.args[0], ix) < Df(q.args[0], ix)
  {
    hide Positions, Matches, Score, IsAverage, IsRarity, IsNorm, ParametersInRange, LengthsInRange, IsLogarithm, Leaf;
    hide Tf, Length, FieldName, Df;
    var avg, x, k := MatchIsWeighed(p, ix, m, d);
    var avg', x', k' := MatchIsWeighed(q, ix, m, d);
    RarityOrders(p, q, ix, x, x');
    SameField(p, q, ix, m, d, avg, avg', k, k');
    IdfOrders(Score(q, ix, m, d).value, Score(p, ix, m, d).value, ix.log(x'), ix.log(x), Tf(p, ix, d), k);
  }

  lemma IdfOrders(s: real, s': real, idf: real, idf': real, tf: real, k: real)
    requires tf > 0.0 && k >= 0.0 && s * (tf + k) == idf * tf && s' * (tf + k) == idf' * tf
    ensures s < s' <==> idf < idf'
  {
    TimesOrders(s, s', tf + k);
    TimesOrders(idf, idf', tf);
  }

  lemma SameField(p: Qry, q: Qry, ix: Index, m: Model, d: int, avg: real, avg': real, k: real, k': real)
    requires Leaf(p) && Leaf(q) && m.BM25? && FieldName(p.args[0]) == FieldName(q.args[0])
    requires IsAverage(p, ix, avg) && IsAverage(q, ix, avg')
    requires IsNorm(m, avg, Length(p, ix, d), k) && IsNorm(m, avg', Length(q, ix, d), k')
    ensures k == k'
  {
    var f := FieldName(p.args[0]);
    if ix.docCount(f) > 0 {
      OnlyFactor(avg, avg', ix.docCount(f) as real);
    }
    if avg != 0.0 {
      OnlyFactor(k, k', avg);
    }
  }
}
