/** The document-at-a-time loop that turns a query into a ranking. */
module Ranker {
  import opened Wrappers
  import opened Sequences
  import opened QueryTree
  import opened Semantics
  import opened FirstMatches
  import opened QueryNodes

  datatype Entry = Entry(score: real, externalId: string)

  // ----- The ranking order: by score, highest first, and by external id among equal scores

  predicate StringLeq(a: string, b: string) {
    a == [] || (b != [] && (a[0] < b[0] || (a[0] == b[0] && StringLeq(a[1..], b[1..]))))
  }

  lemma {:induction false} StringOrder(a: string, b: string)
    ensures StringLeq(a, b) || StringLeq(b, a)
    ensures StringLeq(a, b) && StringLeq(b, a) ==> a == b
  {
    if a != [] && b != [] && a[0] == b[0] {
      StringOrder(a[1..], b[1..]);
      assert a == [a[0]] + a[1..] && b == [b[0]] + b[1..];
    }
  }

  lemma {:induction false} StringTransitive(a: string, b: string, c: string)
    requires StringLeq(a, b) && StringLeq(b, c)
    ensures StringLeq(a, c)
  {
    if a != [] && a[0] == b[0] == c[0] {
      StringTransitive(a[1..], b[1..], c[1..]);
    }
  }

  predicate NotAfter(a: Entry, b: Entry) {
    a.score > b.score || (a.score == b.score && StringLeq(a.externalId, b.externalId))
  }

  ghost predicate Sorted(s: seq<Entry>) {
    forall i, j :: 0 <= i < j < |s| ==> NotAfter(s[i], s[j])
  }

  function Insert(e: Entry, s: seq<Entry>): seq<Entry> {
    if s == [] || NotAfter(e, s[0]) then [e] + s else [s[0]] + Insert(e, s[1..])
  }

  function Sort(s: seq<Entry>): seq<Entry> {
    if s == [] then [] else Insert(s[0], Sort(s[1..]))
  }

  lemma {:induction false} InsertSorted(e: Entry, s: seq<Entry>)
    requires Sorted(s)
    ensures Sorted(Insert(e, s)) && multiset(Insert(e, s)) == multiset(s) + multiset{e}
  {
    if s == [] {
    } else if NotAfter(e, s[0]) {
      forall j | 0 <= j < |s| ensures NotAfter(e, s[j]) {
        if j > 0 && e.score == s[0].score == s[j].score {
          StringTransitive(e.externalId, s[0].externalId, s[j].externalId);
        }
      }
    } else {
      InsertSorted(e, s[1..]);
      var r := Insert(e, s[1..]);
      assert s == [s[0]] + s[1..];
      forall j | 0 <= j < |r| ensures NotAfter(s[0], r[j]) {
        assert r[j] in multiset(r);
        if r[j] != e {
          assert r[j] in s[1..];
        } else {
          StringOrder(e.externalId, s[0].externalId);
        }
      }
    }
  }

  lemma {:induction false} SortSorts(s: seq<Entry>)
    ensures Sorted(Sort(s)) && multiset(Sort(s)) == multiset(s)
  {
    if s != [] {
      SortSorts(s[1..]);
      InsertSorted(s[0], Sort(s[1..]));
      assert s == [s[0]] + s[1..];
    }
  }

  /** The order is total, so a ranking depends only on which entries it has. */
  lemma {:induction false} SortedIsUnique(s: seq<Entry>, t: seq<Entry>)
    requires Sorted(s) && Sorted(t) && multiset(s) == multiset(t)
    ensures s == t
  {
    assert |s| == |multiset(s)| == |multiset(t)| == |t|;
    if s != [] {
      FirstIsFirst(s, t);
      FirstIsFirst(t, s);
      StringOrder(s[0].externalId, t[0].externalId);
      assert s == [s[0]] + s[1..] && t == [t[0]] + t[1..];
      assert multiset(s[1..]) == multiset(s) - multiset{s[0]};
      assert multiset(t[1..]) == multiset(t) - multiset{t[0]};
      SortedIsUnique(s[1..], t[1..]);
    }
  }

  lemma FirstIsFirst(s: seq<Entry>, t: seq<Entry>)
    requires Sorted(s) && multiset(s) == multiset(t) && s != [] && t != []
    ensures s[0] == t[0] || NotAfter(s[0], t[0])
  {
    assert t[0] in multiset(s);
    var j :| 0 <= j < |s| && s[j] == t[0];
  }

  function Top(s: seq<Entry>, n: nat): seq<Entry> {
    if n <= |s| then s[..n] else s
  }

  /**
   The first n of the stored entries: in order, and completed to all of them by entries none of which comes
   before.
   */
  ghost predicate IsTop(top: seq<Entry>, stored: seq<Entry>, n: nat) {
    && Sorted(top) && |top| == (if n <= |stored| then n else |stored|)
    && exists rest :: Completes(top, rest, stored)
  }

  ghost predicate Completes(top: seq<Entry>, rest: seq<Entry>, stored: seq<Entry>) {
    && multiset(top) + multiset(rest) == multiset(stored)
    && (forall i, j :: 0 <= i < |top| && 0 <= j < |rest| ==> NotAfter(top[i], rest[j]))
  }

  lemma TopIsTop(stored: seq<Entry>, n: nat)
    ensures IsTop(Top(Sort(stored), n), stored, n)
  {
    hide NotAfter, Sort;
    SortSorts(stored);
    var s := Sort(stored);
    assert |s| == |multiset(s)| == |stored|;
    var k := |Top(s, n)|;
    assert s == s[..k] + s[k..] && Top(s, n) == s[..k];
    assert Completes(s[..k], s[k..], stored);
  }

  /** There is only one such top: the first entries in sorted order. */
  lemma TopIsUnique(top: seq<Entry>, stored: seq<Entry>, n: nat)
    requires IsTop(top, stored, n)
    ensures top == Top(Sort(stored), n)
  {
    hide NotAfter, Sort;
    var rest :| Completes(top, rest, stored);
    SortSorts(rest);
    SortSorts(stored);
    var tail := Sort(rest);
    forall j | 0 <= j < |tail| ensures exists k :: 0 <= k < |rest| && rest[k] == tail[j] {
      assert tail[j] in multiset(rest);
    }
    SortedAppend(top, tail);
    SortedIsUnique(top + tail, Sort(stored));
    assert |Sort(stored)| == |multiset(Sort(stored))| == |stored|;
    assert (top + tail)[..|top|] == top;
  }

  lemma SortedAppend(s: seq<Entry>, t: seq<Entry>)
    requires Sorted(s) && Sorted(t) && forall i, j :: 0 <= i < |s| && 0 <= j < |t| ==> NotAfter(s[i], t[j])
    ensures Sorted(s + t)
  {
    hide NotAfter;
  }

  class Ranking {
    const maxSize: nat
    const ix: Index
    var ranking: seq<Entry>

    constructor (n: nat, ix: Index)
      ensures maxSize == n && this.ix == ix && ranking == []
    {
      maxSize, this.ix, ranking := n, ix, [];
    }

    method Add(internalId: int, score: real)
      modifies this
      ensures ranking == old(ranking) + [Entry(score, ix.externalId(internalId))]
    {
      ranking := ranking + [Entry(score, ix.externalId(internalId))];
    }

    /** The first entries of the sorted ranking; the stored entries stay in the order they came. */
    method GetRanking() returns (top: seq<Entry>)
      ensures IsTop(top, ranking, maxSize)
    {
      var results := Sort(ranking);
      top := if maxSize <= |results| then results[..maxSize] else results;
      TopIsTop(ranking, maxSize);
    }
  }

  // ----- What the loop has to produce

  /** The entries of the given documents. */
  function Entries(q: Qry, ix: Index, m: Model, docs: seq<int>): (r: seq<Entry>)
    requires forall i :: 0 <= i < |docs| ==> Score(q, ix, m, docs[i]).Some?
    ensures |r| == |docs|
  {
    seq(|docs|, i requires 0 <= i < |docs| => Entry(Score(q, ix, m, docs[i]).value, ix.externalId(docs[i])))
  }

  ghost predicate AllScored(q: Qry, ix: Index, m: Model) {
    forall d :: Matches(q, ix, d) ==> Score(q, ix, m, d).Some?
  }

  /** `docs` lists the matching documents below `lo`, each once, in docid order. */
  ghost predicate Visited(q: Qry, ix: Index, docs: seq<int>, lo: int) {
    && StrictlyIncreasing(docs)
    && forall d :: d in docs <==> Matches(q, ix, d) && d < lo
  }

  lemma VisitNext(q: Qry, ix: Index, docs: seq<int>, lo: int, d: int)
    requires Visited(q, ix, docs, lo) && IsFirst(q, ix, lo, d)
    ensures Visited(q, ix, docs + [d], d + 1)
  {
    hide Matches;
    forall i | 0 <= i < |docs| ensures docs[i] < lo {
      assert docs[i] in docs;
    }
    forall e ensures e in docs + [d] <==> Matches(q, ix, e) && e < d + 1 {
    }
  }

  /** The documents a query matches, once each and in docid order: there is only one such sequence. */
  lemma VisitedIsUnique(q: Qry, ix: Index, s: seq<int>, t: seq<int>, lo: int)
    requires Visited(q, ix, s, lo) && Visited(q, ix, t, lo)
    ensures s == t
  {
    SameElementsSameSequence(s, t);
  }

  /** The whole answer: the top entries among exactly the matching documents, or an exception. */
  ghost predicate Answers(q: Qry, ix: Index, m: Model, n: nat, r: Result<seq<Entry>>) {
    match r
    case Raised(_) => !AllScored(q, ix, m)
    case Ok(top) =>
      && AllScored(q, ix, m)
      && exists docs ::
      && Visited(q, ix, docs, ix.numDocs)
      && (forall i :: 0 <= i < |docs| ==> Score(q, ix, m, docs[i]).Some?)
      && top == Top(Sort(Entries(q, ix, m, docs)), n)
  }

  /** Two answers to the same query rank the same documents in the same order with the same scores. */
  lemma AnswerIsUnique(q: Qry, ix: Index, m: Model, n: nat, r: Result<seq<Entry>>, r': Result<seq<Entry>>)
    requires Answers(q, ix, m, n, r) && Answers(q, ix, m, n, r')
    ensures r.Ok? == r'.Ok? && (r.Ok? ==> r.value == r'.value)
  {
    if r.Ok? && r'.Ok? {
      var docs :| Visited(q, ix, docs, ix.numDocs)
               && (forall i :: 0 <= i < |docs| ==> Score(q, ix, m, docs[i]).Some?)
               && r.value == Top(Sort(Entries(q, ix, m, docs)), n);
      var docs' :| Visited(q, ix, docs', ix.numDocs)
               && (forall i :: 0 <= i < |docs'| ==> Score(q, ix, m, docs'[i]).Some?)
               && r'.value == Top(Sort(Entries(q, ix, m, docs')), n);
      VisitedIsUnique(q, ix, docs, docs', ix.numDocs);
    }
  }

  /** Text in the order of its characters: a prefix comes first, or the smaller one where the two first differ. */
  ghost predicate Alphabetical(a: string, b: string) {
    a <= b || exists k :: 0 <= k < |a| && k < |b| && a[..k] == b[..k] && a[k] < b[k]
  }

  lemma {:induction false} StringLeqExactly(a: string, b: string)
    ensures StringLeq(a, b) <==> Alphabetical(a, b)
  {
    if a != [] && b != [] && a[0] == b[0] {
      StringLeqExactly(a[1..], b[1..]);
      assert a == [a[0]] + a[1..] && b == [b[0]] + b[1..];
      if k :| 0 <= k < |a[1..]| && k < |b[1..]| && a[1..][..k] == b[1..][..k] && a[1..][k] < b[1..][k] {
        assert a[..k + 1] == [a[0]] + a[1..][..k] == b[..k + 1];
        assert a[k + 1] < b[k + 1];
      }
      if k :| 0 <= k < |a| && k < |b| && a[..k] == b[..k] && a[k] < b[k] {
        assert a[1..][..k - 1] == a[..k][1..] == b[..k][1..] == b[1..][..k - 1];
        assert a[1..][k - 1] < b[1..][k - 1];
      }
    } else if a != [] && b != [] {
      AlphabeticalByFirst(a, b);
    }
  }

  lemma AlphabeticalByFirst(a: string, b: string)
    requires a != [] && b != [] && a[0] != b[0]
    ensures Alphabetical(a, b) <==> a[0] < b[0]
  {
    if a[0] < b[0] {
      assert a[..0] == b[..0];
    }
    forall k | 0 <= k < |a| && k < |b| && a[..k] == b[..k] && a[k] < b[k] ensures k == 0 {
      if k > 0 {
        SameFirst(a, b, k);
      }
    }
  }

  lemma SameFirst(a: string, b: string, k: nat)
    requires 0 < k <= |a| && k <= |b| && a[..k] == b[..k]
    ensures a[0] == b[0]
  {
    assert a[..k][0] == a[0] && b[..k][0] == b[0];
  }

  predicate EntryOf(q: Qry, ix: Index, m: Model, d: int, e: Entry) {
    Matches(q, ix, d) && Score(q, ix, m, d) == Some(e.score) && e.externalId == ix.externalId(d)
  }

  /** The entry of a matching document. */
  ghost predicate IsEntry(q: Qry, ix: Index, m: Model, e: Entry) {
    exists d :: EntryOf(q, ix, m, d, e)
  }

  /**
   In an answer scores descend, and ids ascend among equal scores; every entry is that of a matching document; and
   every matching document has an entry, unless n others score at least as much.
   */
  lemma ScoresDescend(q: Qry, ix: Index, m: Model, n: nat, top: seq<Entry>)
    requires ValidIndex(ix) && Answers(q, ix, m, n, Ok(top))
    ensures |top| <= n
    ensures forall i, j :: 0 <= i < j < |top| ==>
              && top[i].score >= top[j].score
              && (top[i].score == top[j].score ==> Alphabetical(top[i].externalId, top[j].externalId))
    ensures forall i :: 0 <= i < |top| ==> IsEntry(q, ix, m, top[i])
    ensures forall e :: IsEntry(q, ix, m, e) ==>
              e in top || (|top| == n && forall i :: 0 <= i < |top| ==> top[i].score >= e.score)
  {
    hide Matches, Score, Sort, StringLeq, Alphabetical, NotAfter, Entries, Visited, AllScored, Top;
    var docs :| Visited(q, ix, docs, ix.numDocs)
      && (forall i :: 0 <= i < |docs| ==> Score(q, ix, m, docs[i]).Some?)
      && top == Top(Sort(Entries(q, ix, m, docs)), n);
    var stored := Entries(q, ix, m, docs);
    TopIsTop(stored, n);
    SortedDescends(top);
    TopOrLess(top, stored, n);
    hide IsEntry;
    forall e ensures e in stored <==> IsEntry(q, ix, m, e) {
      StoredExactly(q, ix, m, docs, e);
    }
  }

  lemma SortedDescends(top: seq<Entry>)
    requires Sorted(top)
    ensures forall i, j :: 0 <= i < j < |top| ==>
              && top[i].score >= top[j].score
              && (top[i].score == top[j].score ==> Alphabetical(top[i].externalId, top[j].externalId))
  {
    hide StringLeq, Alphabetical;
    forall i, j | 0 <= i < j < |top|
      ensures top[i].score >= top[j].score
      ensures top[i].score == top[j].score ==> Alphabetical(top[i].externalId, top[j].externalId)
    {
      StringLeqExactly(top[i].externalId, top[j].externalId);
    }
  }

  lemma StoredExactly(q: Qry, ix: Index, m: Model, docs: seq<int>, e: Entry)
    requires ValidIndex(ix) && Visited(q, ix, docs, ix.numDocs)
    requires forall i :: 0 <= i < |docs| ==> Score(q, ix, m, docs[i]).Some?
    ensures e in Entries(q, ix, m, docs) <==> IsEntry(q, ix, m, e)
  {
    hide Matches, Score;
    var stored := Entries(q, ix, m, docs);
    if k :| 0 <= k < |stored| && stored[k] == e {
      assert docs[k] in docs;
      assert EntryOf(q, ix, m, docs[k], e);
    }
    if d :| EntryOf(q, ix, m, d, e) {
      MatchesInCollection(q, ix, d);
      var k :| 0 <= k < |docs| && docs[k] == d;
      assert stored[k] == e;
    }
  }

  lemma TopOrLess(top: seq<Entry>, stored: seq<Entry>, n: nat)
    requires IsTop(top, stored, n)
    ensures forall i :: 0 <= i < |top| ==> top[i] in stored
    ensures forall e :: e in stored ==>
              e in top || (|top| == n && forall i :: 0 <= i < |top| ==> top[i].score >= e.score)
  {
    hide StringLeq;
    var rest :| Completes(top, rest, stored);
    forall i | 0 <= i < |top| ensures top[i] in stored {
      assert top[i] in multiset(top) + multiset(rest);
    }
    assert |multiset(top) + multiset(rest)| == |top| + |rest|;
    forall e | e in stored && e !in top ensures |top| == n && forall i :: 0 <= i < |top| ==> top[i].score >= e.score {
      assert e in multiset(top) + multiset(rest);
      var j :| 0 <= j < |rest| && rest[j] == e;
    }
  }

  /** The documents visited so far, and what was stored for them. */
  ghost predicate Progress(q: Qry, ix: Index, m: Model, docs: seq<int>, lo: int, entries: seq<Entry>) {
    && Visited(q, ix, docs, lo)
    && (forall i :: 0 <= i < |docs| ==> Score(q, ix, m, docs[i]).Some?)
    && entries == Entries(q, ix, m, docs)
  }

  lemma ProgressNext(q: Qry, ix: Index, m: Model, docs: seq<int>, lo: int, entries: seq<Entry>, d: int)
    requires Progress(q, ix, m, docs, lo, entries) && IsFirst(q, ix, lo, d) && Score(q, ix, m, d).Some?
    ensures Progress(q, ix, m, docs + [d], d + 1, entries + [Entry(Score(q, ix, m, d).value, ix.externalId(d))])
  {
    VisitNext(q, ix, docs, lo, d);
    hide Score, Visited;
  }

  /** One pass of the loop: read the match, score it, move past it, store it. */
  method RankNext(q: QryNode, ix: Index, m: Model, ranking: Ranking, ghost d: int, ghost docs: seq<int>)
    returns (scored: bool)
    requires ValidIndex(ix) && q.Shape() && Evaluable(q.tree) && !q.tree.IsIop() && q.Ready(ix, m)
    requires q.PointsAt(d) && IsFirst(q.tree, ix, q.lo, d) && ranking !in q.Repr && ranking.ix == ix
    requires Progress(q.tree, ix, m, docs, q.lo, ranking.ranking)
    modifies q.Repr, ranking
    ensures !scored ==> !AllScored(q.tree, ix, m)
    ensures scored ==> q.Ready(ix, m) && q.lo == d + 1 && old(q.lo) < q.lo <= ix.numDocs
    ensures scored ==> Progress(q.tree, ix, m, docs + [d], q.lo, ranking.ranking)
  {
    hide q.Ready, IsFirst, Score, Evaluable, Later, Progress, AllScored, Matches;
    FirstLeavesNone(q.tree, ix, q.lo, d);
    MatchesInCollection(q.tree, ix, d);
    q.Points(d);
    q.CacheOfPoint(d);
    var docid := q.GetMatch();
    var score := q.GetScore(ix, m);
    if score.None? {
      NotAllScored(q.tree, ix, m, d);
      return false;
    }
    ProgressNext(q.tree, ix, m, docs, q.lo, ranking.ranking, d);
    LaterIs(q.lo, docid, true);
    q.Advance(ix, m, docid, true);
    ranking.Add(docid, score.value);
    return true;
  }

  /** get_rankings_bow for one parsed and optimized query. */
  method GetRanking(tree: Option<Qry>, ix: Index, m: Model, n: nat) returns (r: Result<seq<Entry>>)
    requires ValidIndex(ix)
    requires tree.Some? ==> Evaluable(tree.value) && !tree.value.IsIop()
    ensures tree.None? ==> r.Raised?
    ensures tree.Some? ==> Answers(tree.value, ix, m, n, r)
  {
    hide Matches, Score, Evaluable, Sort, Top, IsTop, IsFirst, NoneFrom, Progress, AllScored;
    if tree.None? {
      return Raised("no query is left after optimization");
    }
    var q := Build(tree.value);
    q.Initialize(ix, m);
    var ranking := new Ranking(n, ix);
    ghost var docs := [];
    NothingVisited(q.tree, ix, m);
    var more, d := q.HasMatch(ix, m);
    while more
      invariant fresh(q.Repr) && ranking !in q.Repr && fresh(ranking) && ranking.ix == ix && ranking.maxSize == n
      invariant q.Ready(ix, m)
      invariant Progress(q.tree, ix, m, docs, q.lo, ranking.ranking)
      invariant more ==> q.PointsAt(d) && IsFirst(q.tree, ix, q.lo, d)
      invariant !more ==> NoneFrom(q.tree, ix, q.lo)
      decreases more, ix.numDocs - q.lo
    {
      var scored := RankNext(q, ix, m, ranking, d, docs);
      if !scored {
        return Raised("the retrieval model cannot score an operator of the query");
      }
      docs := docs + [d];
      more, d := q.HasMatch(ix, m);
    }
    var top := ranking.GetRanking();
    TopIsUnique(top, ranking.ranking, n);
    VisitedAll(q.tree, ix, m, docs, q.lo, ranking.ranking, n);
    r := Ok(top);
  }

  lemma NothingVisited(q: Qry, ix: Index, m: Model)
    requires ValidIndex(ix)
    ensures Progress(q, ix, m, [], 0, [])
  {
    forall d | d < 0 ensures !Matches(q, ix, d) {
      if Matches(q, ix, d) {
        MatchesInCollection(q, ix, d);
      }
    }
  }

  lemma NotAllScored(q: Qry, ix: Index, m: Model, d: int)
    requires Matches(q, ix, d) && Score(q, ix, m, d).None?
    ensures !AllScored(q, ix, m)
  {
  }

  lemma VisitedAll(q: Qry, ix: Index, m: Model, docs: seq<int>, lo: int, entries: seq<Entry>, n: nat)
    requires ValidIndex(ix) && Progress(q, ix, m, docs, lo, entries) && NoneFrom(q, ix, lo)
    ensures Answers(q, ix, m, n, Ok(Top(Sort(entries), n)))
  {
    hide Score, Sort, Top;
    forall d | Matches(q, ix, d) ensures d < lo && d < ix.numDocs && d in docs {
      MatchesInCollection(q, ix, d);
    }
    assert Visited(q, ix, docs, ix.numDocs);
  }
}
