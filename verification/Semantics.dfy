/**
 What a query means, one document at a time and without iterators: the positions an inverted-list
 node has in a document, whether a document matches, and its score.
 */
module Semantics {
  import opened Wrappers
  import opened Sequences
  import opened InvertedLists
  import opened QueryTree
  import Sweeps
  import Near
  import Window

  /** The collection: postings by (field, term), and the statistics the ranking functions read. */
  datatype Index = Index(
    numDocs: nat,
    lists: map<(string, string), seq<Posting>>,
    fieldLength: (string, int) -> int,
    sumOfFieldLengths: string -> int,
    docCount: string -> int,
    externalId: int -> string,
    log: real -> real)

  ghost predicate ValidIndex(ix: Index) {
    forall k :: k in ix.lists ==> WellFormed(ix.lists[k], ix.numDocs)
  }

  function TermList(ix: Index, term: string, field: string): seq<Posting> {
    if (field, term) in ix.lists then ix.lists[(field, term)] else []
  }

  datatype Model = UnrankedBoolean | RankedBoolean | BM25(k1: real, b: real)

  // ----- Positions

  function Flatten(lists: seq<seq<int>>): (r: seq<int>)
    ensures forall y :: y in r <==> exists i :: 0 <= i < |lists| && y in lists[i]
  {
    if lists == [] then []
    else
      assert lists == [lists[0]] + lists[1..];
      lists[0] + Flatten(lists[1..])
  }

  lemma {:induction false} FlattenAppend(lists: seq<seq<int>>, last: seq<int>)
    ensures Flatten(lists + [last]) == Flatten(lists) + last
  {
    if lists == [] {
      assert Flatten([last]) == last + Flatten([]);
    } else {
      assert (lists + [last])[1..] == lists[1..] + [last];
      FlattenAppend(lists[1..], last);
    }
  }

  /** The positions of one operator in a document, from those of its arguments. */
  function Combine(op: Op, lists: seq<seq<int>>): seq<int> {
    if lists == [] then []
    else match op
      case SYN => SortedSet(Flatten(lists))
      case NEAR(n) => Near.Matches(lists, n, Sweeps.Start(lists))
      case WINDOW(n) => Window.Matches(lists, n, Sweeps.Start(lists))
      case _ => []
  }

  function Positions(q: Qry, ix: Index, d: int): seq<int>
    decreases q
  {
    if q.Term? then PositionsIn(TermList(ix, q.term, q.field), d)
    else Combine(q.op, seq(|q.args|, i requires 0 <= i < |q.args| => Positions(q.args[i], ix, d)))
  }

  function ArgPositions(q: Qry, ix: Index, d: int): (r: seq<seq<int>>)
    ensures |r| == |q.Args()| && forall i :: 0 <= i < |r| ==> r[i] == Positions(q.Args()[i], ix, d)
  {
    seq(|q.Args()|, i requires 0 <= i < |q.Args()| => Positions(q.Args()[i], ix, d))
  }

  lemma PositionsOfNode(q: Qry, ix: Index, d: int)
    requires q.Node?
    ensures Positions(q, ix, d) == Combine(q.op, ArgPositions(q, ix, d))
  {
    assert ArgPositions(q, ix, d) == seq(|q.args|, i requires 0 <= i < |q.args| => Positions(q.args[i], ix, d));
  }

  lemma CombineOrdered(op: Op, lists: seq<seq<int>>)
    requires Sweeps.Ordered(lists)
    ensures StrictlyIncreasing(Combine(op, lists)) && NonNegative(Combine(op, lists))
  {
    if lists != [] {
      match op {
        case SYN =>
          var r := SortedSet(Flatten(lists));
          forall k | 0 <= k < |r| ensures 0 <= r[k] {
            assert r[k] in Flatten(lists);
            var i :| 0 <= i < |lists| && r[k] in lists[i];
          }
        case NEAR(n) => Near.NearIsSoundAndMaximum(lists, n, Combine(op, lists));
        case WINDOW(n) => Window.WindowIsSoundAndMaximum(lists, n, Combine(op, lists));
        case _ =>
      }
    }
  }

  /** Positions are strictly increasing whatever the nesting of inverted-list operators. */
  lemma {:induction false} PositionsOrdered(q: Qry, ix: Index, d: int)
    requires ValidIndex(ix)
    ensures StrictlyIncreasing(Positions(q, ix, d)) && NonNegative(Positions(q, ix, d))
    decreases q
  {
    if q.Term? {
      var ps := TermList(ix, q.term, q.field);
      if PositionsIn(ps, d) != [] {
        var i := Stored(ps, ix.numDocs, d);
        assert WellFormedPosting(ps[i], ix.numDocs);
      }
    } else {
      forall i | 0 <= i < |q.args|
        ensures StrictlyIncreasing(ArgPositions(q, ix, d)[i]) && NonNegative(ArgPositions(q, ix, d)[i])
      {
        PositionsOrdered(q.args[i], ix, d);
      }
      PositionsOfNode(q, ix, d);
      CombineOrdered(q.op, ArgPositions(q, ix, d));
    }
  }

  // ----- Matching

  predicate Matches(q: Qry, ix: Index, d: int)
    decreases q
  {
    if q.IsIop() then Positions(q, ix, d) != []
    else if q.op.SCORE? then q.args != [] && Matches(q.args[0], ix, d)
    else if q.op.AND? then q.args != [] && forall i :: 0 <= i < |q.args| ==> Matches(q.args[i], ix, d)
    else exists i :: 0 <= i < |q.args| && Matches(q.args[i], ix, d)
  }

  lemma CombineNeedsLists(op: Op, lists: seq<seq<int>>)
    requires op.NEAR? || op.WINDOW?
    requires exists i :: 0 <= i < |lists| && lists[i] == []
    ensures Combine(op, lists) == []
  {
    assert Sweeps.OutOfDoc(lists, Sweeps.Start(lists));
  }

  lemma {:induction false} FlattenOfNothing(lists: seq<seq<int>>)
    requires forall i :: 0 <= i < |lists| ==> lists[i] == []
    ensures Flatten(lists) == []
  {
    if lists != [] {
      FlattenOfNothing(lists[1..]);
    }
  }

  lemma CombineOfNothing(op: Op, lists: seq<seq<int>>)
    requires forall i :: 0 <= i < |lists| ==> lists[i] == []
    ensures Combine(op, lists) == []
  {
    if lists != [] {
      if op.SYN? {
        FlattenOfNothing(lists);
      } else if op.NEAR? || op.WINDOW? {
        assert lists[0] == [];
        CombineNeedsLists(op, lists);
      }
    }
  }

  lemma {:induction false} PositionsInCollection(q: Qry, ix: Index, d: int)
    requires ValidIndex(ix) && Positions(q, ix, d) != []
    ensures 0 <= d < ix.numDocs
    decreases q
  {
    if q.Term? {
      var ps := TermList(ix, q.term, q.field);
      var i := Stored(ps, ix.numDocs, d);
      assert WellFormedPosting(ps[i], ix.numDocs);
    } else {
      PositionsOfNode(q, ix, d);
      if i :| 0 <= i < |q.args| && Positions(q.args[i], ix, d) != [] {
        PositionsInCollection(q.args[i], ix, d);
      } else {
        CombineOfNothing(q.op, ArgPositions(q, ix, d));
      }
    }
  }

  /** Only documents of the collection match. */
  lemma {:induction false} MatchesInCollection(q: Qry, ix: Index, d: int)
    requires ValidIndex(ix) && Matches(q, ix, d)
    ensures 0 <= d < ix.numDocs
    decreases q
  {
    if q.IsIop() {
      PositionsInCollection(q, ix, d);
    } else if q.op.SCORE? || q.op.AND? {
      MatchesInCollection(q.args[0], ix, d);
    } else {
      var i :| 0 <= i < |q.args| && Matches(q.args[i], ix, d);
      MatchesInCollection(q.args[i], ix, d);
    }
  }

  // ----- Scores

  function Docs(q: Qry, ix: Index): set<int> {
    set d | 0 <= d < ix.numDocs && Positions(q, ix, d) != []
  }

  /** How many documents a node has positions in. */
  function Df(q: Qry, ix: Index): nat {
    |Docs(q, ix)|
  }

  function AvgDocLen(ix: Index, field: string): real {
    if ix.docCount(field) > 0 then ix.sumOfFieldLengths(field) as real / ix.docCount(field) as real else 0.0
  }

  function Idf(ix: Index, df: nat): real {
    ix.log((ix.numDocs + 1) as real / (df as real + 0.5))
  }

  /** The BM25 weight of a term frequency; None where the division fails. */
  function Bm25Weight(m: Model, idf: real, avgDocLen: real, tf: nat, docLen: int): Option<real>
    requires m.BM25?
  {
    var norm := if avgDocLen == 0.0 then m.k1 else m.k1 * ((1.0 - m.b) + m.b * (docLen as real / avgDocLen));
    if tf as real + norm == 0.0 then None else Some(idf * (tf as real / (tf as real + norm)))
  }

  /** The name under which a node's list was built; empty for a node without a field. */
  function FieldName(q: Qry): string {
    match FieldOf(q) case Some(f) => f case None => ""
  }

  function LeafScore(q: Qry, ix: Index, m: Model, d: int): Option<real> {
    match m
    case UnrankedBoolean => Some(1.0)
    case RankedBoolean => Some(|Positions(q, ix, d)| as real)
    case BM25(_, _) =>
      Bm25Weight(m, Idf(ix, Df(q, ix)), AvgDocLen(ix, FieldName(q)), |Positions(q, ix, d)|,
                 ix.fieldLength(FieldName(q), d))
  }

  function RMax(x: real, y: real): real { if x < y then y else x }

  function RMin(x: real, y: real): real { if y < x then y else x }

  /** One argument's score joins the score of the arguments before it. */
  function Join(op: Op, first: bool, acc: real, weight: real, score: real): real {
    match op
    case AND => if first then score else RMin(acc, score)
    case OR => RMax(acc, score)
    case WSUM => acc + weight * score
    case _ => acc + score
  }

  function WeightSum(weights: seq<real>): real {
    if weights == [] then 0.0 else WeightSum(weights[..|weights| - 1]) + weights[|weights| - 1]
  }

  function WeightAt(q: Qry, i: nat): real
    requires q.Node?
  {
    if i < |q.weights| then q.weights[i] else 0.0
  }

  /** Which operators a retrieval model can score; the others raise an exception. */
  predicate OpSupported(op: Op, m: Model) {
    match op
    case SCORE => true
    case AND | OR => !m.BM25?
    case SUM | WSUM => m.BM25?
    case _ => false
  }

  /** The score of a matching document; None where evaluating it raises an exception. */
  function Score(q: Qry, ix: Index, m: Model, d: int): Option<real>
    decreases q, 1, 0
  {
    if q.IsIop() || !OpSupported(q.op, m) || (q.op.SCORE? && q.args == []) then None
    else if q.op.SCORE? then LeafScore(q.args[0], ix, m, d)
    else if m.UnrankedBoolean? then Some(1.0)
    else
      match Accumulated(q, ix, m, d, |q.args|)
      case None => None
      case Some(x) => Some(Finish(q, x))
  }

  function Finish(q: Qry, x: real): real
    requires q.Node?
  {
    if !q.op.WSUM? then x
    else if WeightSum(q.weights) > 0.0 then x / WeightSum(q.weights) else 0.0
  }

  /** The running score over the first `k` arguments; only matching arguments take part. */
  function Accumulated(q: Qry, ix: Index, m: Model, d: int, k: nat): Option<real>
    requires q.Node? && k <= |q.args|
    decreases q, 0, k
  {
    if k == 0 then Some(0.0)
    else
      match Accumulated(q, ix, m, d, k - 1)
      case None => None
      case Some(x) =>
        if !Matches(q.args[k - 1], ix, d) then Some(x)
        else
          match Score(q.args[k - 1], ix, m, d)
          case None => None
          case Some(y) => Some(Join(q.op, k == 1, x, WeightAt(q, k - 1), y))
  }
}
