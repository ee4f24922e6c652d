/**
 The query operators as the search engine runs them: nodes whose iterators and match caches are
 updated in place.  An inverted-list node iterates over its materialised list; a score node iterates
 over its arguments and caches the match it found.
 */
module QueryNodes {
  import opened Wrappers
  import opened Sequences
  import opened InvertedLists
  import opened QueryTree
  import opened Semantics
  import opened FirstMatches
  import Sweeps
  import Near
  import Window

  /** The match cache: not yet created, cleared (the invalid docid), or holding a match. */
  datatype Cache = Unset | Cleared | At(docid: int)

  class QryNode {
    const tree: Qry
    const args: seq<QryNode>
    const list: InvList
    var docIndex: int
    var cache: Cache
    var avgDocLen: real
    var idf: real

    ghost const argsRepr: set<object>
    ghost const Repr: set<object>
    /** No document below `lo` is of interest any more. */
    ghost var lo: int

    /** The node graph is a tree that mirrors `tree`; it never changes once built. */
    ghost predicate Shape()
      decreases tree
    {
      && Repr == {this, list} + argsRepr && this !in argsRepr && list !in argsRepr
      && |args| == |tree.Args()|
      && (forall i :: 0 <= i < |args| ==>
            args[i].tree == tree.Args()[i] && args[i].Repr <= argsRepr && args[i] in args[i].Repr
              && args[i].list in args[i].Repr)
      && (forall i, j :: 0 <= i < j < |args| ==> args[i].Repr !! args[j].Repr)
      && (forall i :: 0 <= i < |args| ==> args[i].Shape())
    }

    /** The first level of the shape. */
    lemma Parts()
      requires Shape()
      ensures Repr == {this, list} + argsRepr && this !in argsRepr && list !in argsRepr && |args| == |tree.Args()|
      ensures forall i :: 0 <= i < |args| ==>
                && args[i].Shape() && args[i].tree == tree.Args()[i] && args[i].Repr <= argsRepr
                && args[i] in args[i].Repr && args[i].list in args[i].Repr
      ensures forall i, j :: 0 <= i < j < |args| ==> args[i].Repr !! args[j].Repr
    {
    }

    /** The node points at document `d`. */
    ghost predicate PointsAt(d: int)
      reads this, list
    {
      if tree.IsIop() then 0 <= docIndex < |list.postings| && list.postings[docIndex].docid == d
      else cache == At(d)
    }

    ghost predicate ListReady(ix: Index)
      reads this, list
    {
      list.Valid() && Materialises(list.postings, tree, ix) && StandsAt(list.postings, docIndex, lo)
    }

    /** What initialize computed once for a score node. */
    ghost predicate StatsReady(ix: Index, m: Model)
      reads this
    {
      tree.Node? && tree.op.SCORE? && tree.args != [] && m.BM25? ==>
        avgDocLen == AvgDocLen(ix, FieldName(tree.args[0])) && idf == Idf(ix, Df(tree.args[0], ix))
    }

    /** The arguments' iterators have passed nothing this node still needs. */
    ghost predicate InStep(ix: Index)
      requires Shape()
      reads Repr
    {
      forall i :: 0 <= i < |args| ==> InStepAt(ix, i, args[i].lo)
    }

    ghost predicate InStepAt(ix: Index, i: nat, at: int)
      reads this
    {
      if tree.Node? && tree.op.AND? then (i == 0 ==> lo <= at) && NoneBetween(tree, ix, lo, at) else at == lo
    }

    /**
     A cached match is the first match from `lo` on, so it is never stale; an AND or SCORE that has
     a match cached has all its arguments pointing at it.
     */
    ghost predicate CacheReady(ix: Index)
      requires Shape()
      reads Repr
    {
      && (cache.At? ==> IsFirst(tree, ix, lo, cache.docid))
      && (cache.At? && tree.Node? && (tree.op.AND? || tree.op.SCORE?) ==>
            forall i :: 0 <= i < |args| ==> args[i].PointsAt(cache.docid))
    }

    ghost predicate ArgsReady(ix: Index, m: Model)
      requires Shape()
      reads argsRepr
      decreases tree, 0
    {
      forall i :: 0 <= i < |args| ==> args[i].Ready(ix, m)
    }

    /** The iterator invariant of a node that is being iterated over. */
    ghost predicate Ready(ix: Index, m: Model)
      requires Shape()
      reads Repr
      decreases tree, 1
    {
      if tree.IsIop() then ListReady(ix)
      else StatsReady(ix, m) && ArgsReady(ix, m) && InStep(ix) && CacheReady(ix)
    }

    constructor (tree: Qry, args: seq<QryNode>, ghost below: set<object>)
      requires |args| == |tree.Args()|
      requires forall i :: 0 <= i < |args| ==>
               args[i].tree == tree.Args()[i] && args[i].Shape() && args[i].Repr <= below
      requires forall i, j :: 0 <= i < j < |args| ==> args[i].Repr !! args[j].Repr
      requires forall i :: 0 <= i < |args| ==> args[i].Untouched()
      ensures Shape() && this.tree == tree && this.args == args && Untouched()
      ensures argsRepr == below && fresh(Repr - below)
    {
      this.tree, this.args := tree, args;
      docIndex, cache, avgDocLen, idf, lo := -1, Unset, 0.0, 0.0, 0;
      var l := new InvList();
      list := l;
      argsRepr := below;
      Repr := {this, l} + below;
    }

    // ----- Moving the iterator

    /** Move the iterator of an inverted-list node to the first posting not below `lo'`. */
    method SeekList(ix: Index, target: int, past: bool)
      requires tree.IsIop() && ListReady(ix)
      modifies this
      ensures ListReady(ix) && lo == Later(old(lo), target, past) && cache == old(cache)
    {
      while docIndex < list.df && (if past then list.GetDocid(docIndex) <= target else list.GetDocid(docIndex) < target)
        invariant 0 <= docIndex <= |list.postings| && lo == old(lo) && cache == old(cache)
        invariant forall k :: 0 <= k < docIndex ==> list.postings[k].docid < Later(lo, target, past)
        invariant forall k :: docIndex <= k < |list.postings| ==> lo <= list.postings[k].docid
        decreases |list.postings| - docIndex
      {
        docIndex := docIndex + 1;
      }
      lo := Later(lo, target, past);
    }

    /** Every argument's iterator moves; nothing else does. */
    method AdvanceArgs(ix: Index, ghost m: Model, target: int, past: bool)
      requires Shape() && ArgsReady(ix, m)
      modifies argsRepr
      ensures ArgsReady(ix, m)
      ensures forall i :: 0 <= i < |args| ==> args[i].lo == Later(old(args[i].lo), target, past)
      decreases tree, 0
    {
      hide Ready, PointsAt, Later;
      for i := 0 to |args|
        invariant forall j :: 0 <= j < |args| ==> args[j].Ready(ix, m)
        invariant forall j :: 0 <= j < i ==> args[j].lo == Later(old(args[j].lo), target, past)
        invariant forall j :: i <= j < |args| ==> args[j].lo == old(args[j].lo)
      {
        args[i].Advance(ix, m, target, past);
      }
    }

    /** The iterators of an operator's arguments move together, and its cached match is dropped. */
    method AdvanceScoreNode(ix: Index, ghost m: Model, target: int, past: bool)
      requires Shape() && !tree.IsIop() && Ready(ix, m)
      modifies Repr
      ensures Ready(ix, m) && lo == Later(old(lo), target, past)
      decreases tree, 1
    {
      hide Matches, ListReady, NoneBetween, IsFirst, Later, ArgsReady, CacheReady;
      ghost var from := lo;
      assert InStep(ix);
      AdvanceArgs(ix, m, target, past);
      cache := Cleared;
      lo := Later(lo, target, past);
      forall i | 0 <= i < |args| ensures InStepAt(ix, i, args[i].lo) {
        LaterNoneBetween(tree, ix, from, old(args[i].lo), target, past);
      }
      NothingCached(ix);
    }

    // ----- Finding a match

    predicate Pointing()
      reads this, list
    {
      if tree.IsIop() then 0 <= docIndex < |list.postings| else cache.At?
    }

    function GetMatch(): (d: int)
      requires Pointing()
      reads this, list
      ensures PointsAt(d)
    {
      if tree.IsIop() then list.postings[docIndex].docid else cache.docid
    }

    /** No argument has passed a document, from `from` on, that matches all of them. */
    ghost predicate Trailing(ix: Index, from: int)
      requires Shape()
      reads argsRepr
    {
      && (args != [] ==> from <= args[0].lo)
      && forall i :: 0 <= i < |args| ==> NoneBetween(Conj(tree), ix, from, args[i].lo)
    }

    /** Advance to `docid` or past it, then look for a match. */
    method MatchFrom(ix: Index, m: Model, docid: int, past: bool) returns (b: bool, ghost d: int)
      requires ValidIndex(ix) && Shape() && Evaluable(tree) && Ready(ix, m)
      modifies Repr
      ensures Ready(ix, m) && lo == Later(old(lo), docid, past)
      ensures b ==> PointsAt(d) && IsFirst(tree, ix, lo, d)
      ensures !b ==> NoneFrom(tree, ix, lo)
      decreases tree, 5
    {
      hide Ready, IsFirst, NoneFrom, PointsAt, Later, Evaluable;
      Advance(ix, m, docid, past);
      b, d := HasMatch(ix, m);
    }

    /** Bring argument `i` up to the document the first argument points at. */
    method AlignArg(ix: Index, m: Model, i: nat, docid: int, ghost from: int) returns (b: bool, ghost d: int)
      requires ValidIndex(ix) && Shape() && Evaluable(tree) && ArgsReady(ix, m) && Trailing(ix, from)
      requires 0 < i < |args| && IsFirst(args[0].tree, ix, args[0].lo, docid)
      modifies args[i].Repr
      ensures ArgsReady(ix, m) && Trailing(ix, from)
      ensures b ==> args[i].PointsAt(d) && IsFirst(args[i].tree, ix, args[i].lo, d) && docid <= d
      ensures !b ==> NoneFrom(Conj(tree), ix, from)
      decreases tree, 0
    {
      hide Ready, NoneBetween, IsFirst, Matches, NoneFrom, Conj, PointsAt, Later, Evaluable, Shape;
      Parts();
      FirstLeavesNone(args[0].tree, ix, args[0].lo, docid);
      ConjFollowsArg(tree, ix, from, 0, args[0].lo, docid);
      ArgsEvaluable(tree);
      LaterIs(args[i].lo, docid, false);
      b, d := args[i].MatchFrom(ix, m, docid, false);
      if b {
        FirstLeavesNone(args[i].tree, ix, args[i].lo, d);
      } else {
        ConjExhausted(tree, ix, from, i, args[i].lo);
      }
    }

    /** Arguments 1 up to `k` point at `docid`, as the first argument does. */
    ghost predicate AlignedUpTo(docid: int, k: nat)
      requires Shape() && k <= |args|
      reads argsRepr
    {
      forall j :: 0 <= j < k ==> args[j].PointsAt(docid)
    }

    /** One round of the search: do the other arguments match where the first one does? */
    method AlignOthers(ix: Index, m: Model, docid: int, ghost from: int) returns (found: bool, exhausted: bool)
      requires ValidIndex(ix) && Shape() && Evaluable(tree) && ArgsReady(ix, m) && Trailing(ix, from)
      requires args != [] && args[0].PointsAt(docid) && IsFirst(args[0].tree, ix, args[0].lo, docid)
      modifies argsRepr
      ensures ArgsReady(ix, m) && Trailing(ix, from) && !(found && exhausted)
      ensures found ==> AlignedUpTo(docid, |args|) && NoneBetween(Conj(tree), ix, from, docid) && from <= docid
      ensures found ==> forall j :: 0 <= j < |args| ==> Matches(args[j].tree, ix, docid)
      ensures exhausted ==> NoneFrom(Conj(tree), ix, from)
      ensures !found && !exhausted ==> old(args[0].lo) < args[0].lo <= ix.numDocs
      decreases tree, 1
    {
      hide Ready, NoneBetween, IsFirst, Matches, NoneFrom, Conj, PointsAt, Later, Evaluable, Shape;
      Parts();
      FirstLeavesNone(args[0].tree, ix, args[0].lo, docid);
      ConjFollowsArg(tree, ix, from, 0, args[0].lo, docid);
      for i := 1 to |args|
        invariant ArgsReady(ix, m) && Trailing(ix, from)
        invariant args[0].lo == old(args[0].lo) && AlignedUpTo(docid, i)
        invariant forall j :: 0 <= j < i ==> Matches(args[j].tree, ix, docid)
      {
        var b, d := AlignArg(ix, m, i, docid, from);
        if !b {
          return false, true;
        }
        args[i].Points(d);
        var docidI := args[i].GetMatch();
        FirstLeavesNone(args[i].tree, ix, args[i].lo, docidI);
        if docid != docidI {
          ConjFollowsArg(tree, ix, from, i, args[i].lo, docidI);
          MatchesInCollection(args[i].tree, ix, docidI);
          LaterIs(args[0].lo, docidI, false);
          args[0].Advance(ix, m, docidI, false);
          return false, false;
        }
      }
      return true, false;
    }

    lemma Points(d: int)
      requires PointsAt(d)
      ensures Pointing() && GetMatch() == d
    {
    }

    /** docIteratorHasMatchAll: find the next document that every argument matches. */
    method HasMatchAll(ix: Index, m: Model, ghost from: int) returns (b: bool, ghost d: int)
      requires ValidIndex(ix) && Shape() && Evaluable(tree) && args != []
      requires ArgsReady(ix, m) && Trailing(ix, from)
      modifies this`cache, argsRepr
      ensures ArgsReady(ix, m) && Trailing(ix, from)
      ensures b ==> cache == At(d) && AlignedUpTo(d, |args|) && IsFirst(Conj(tree), ix, from, d)
      ensures !b ==> cache == old(cache) && NoneFrom(Conj(tree), ix, from)
      decreases tree, 2
    {
      hide Ready, NoneBetween, Matches, NoneFrom, PointsAt, Evaluable, Shape;
      Parts();
      var matchFound := false;
      b, d := false, 0;
      while !matchFound
        invariant ArgsReady(ix, m) && Trailing(ix, from)
        invariant !matchFound ==> cache == old(cache)
        invariant matchFound ==> cache == At(d) && AlignedUpTo(d, |args|) && IsFirst(Conj(tree), ix, from, d)
        decreases !matchFound, ix.numDocs - args[0].lo
      {
        ArgsEvaluable(tree);
        ghost var first;
        b, first := args[0].HasMatch(ix, m);
        if !b {
          ConjExhausted(tree, ix, from, 0, args[0].lo);
          return;
        }
        args[0].Points(first);
        var docid := args[0].GetMatch();
        var exhausted;
        matchFound, exhausted := AlignOthers(ix, m, docid, from);
        if exhausted {
          return false, 0;
        }
        if matchFound {
          cache := At(docid);
          d := docid;
          ConjFirst(tree, ix, from, docid);
        }
      }
      return true, d;
    }

    /** docIteratorHasMatchFirst: a SCORE node matches where its argument does. */
    method HasMatchFirst(ix: Index, m: Model) returns (b: bool, ghost d: int)
      requires ValidIndex(ix) && Shape() && Evaluable(tree) && Ready(ix, m) && tree.Node? && tree.op.SCORE?
      modifies Repr
      ensures Ready(ix, m) && lo == old(lo)
      ensures b ==> PointsAt(d) && IsFirst(tree, ix, lo, d)
      ensures !b ==> NoneFrom(tree, ix, lo)
      decreases tree, 3
    {
      hide Ready, ArgsReady, Matches, NoneFrom, IsFirst, Evaluable, PointsAt, InStepAt;
      ArgsEvaluable(tree);
      ScoreFirst(tree, ix, lo);
      OpenReady(ix, m);
      ScoreInStep(ix);
      ArgReady(ix, m, 0);
      b, d := args[0].HasMatch(ix, m);
      AllArgsReady(ix, m);
      if b {
        args[0].Points(d);
        cache := At(args[0].GetMatch());
        CachePoints(d);
      } else {
        NoneMeansUncached(ix);
      }
      ScoreInStep(ix);
      CloseReady(ix, m);
    }

    lemma CacheOfPoint(d: int)
      requires !tree.IsIop() && PointsAt(d)
      ensures cache == At(d)
    {
    }

    lemma ScoreInStep(ix: Index)
      requires Shape() && tree.Node? && !tree.op.AND?
      ensures InStep(ix) <==> forall i :: 0 <= i < |args| ==> args[i].lo == lo
    {
    }

    lemma CachePoints(d: int)
      requires !tree.IsIop() && cache == At(d)
      ensures PointsAt(d)
    {
    }

    /** Argument `i` joins the search for the smallest match. */
    method SmallerMatch(ix: Index, m: Model, i: nat, best: Option<int>) returns (r: Option<int>)
      requires ValidIndex(ix) && Shape() && Evaluable(tree) && ArgsReady(ix, m)
      requires i < |args| && args[i].lo == lo && MinOf(tree, ix, lo, i, best)
      modifies args[i].Repr
      ensures ArgsReady(ix, m) && args[i].lo == lo
      ensures MinOf(tree, ix, lo, i + 1, r)
      decreases tree, 1
    {
      hide Ready, Matches, IsFirst, Evaluable, PointsAt, MinOf, NoneFrom, Shape;
      Parts();
      ArgsEvaluable(tree);
      var b, d := args[i].HasMatch(ix, m);
      if b {
        args[i].Points(d);
        var docid := args[i].GetMatch();
        MinStep(tree, ix, lo, i, best, docid);
        r := if best.None? || docid < best.value then Some(docid) else best;
      } else {
        MinUnchanged(tree, ix, lo, i, best);
        r := best;
      }
    }

    /** The smallest match among the arguments. */
    method MinOverArgs(ix: Index, m: Model) returns (minDocid: Option<int>)
      requires ValidIndex(ix) && Shape() && Evaluable(tree) && ArgsReady(ix, m)
      requires forall i :: 0 <= i < |args| ==> args[i].lo == lo
      modifies argsRepr
      ensures ArgsReady(ix, m) && forall i :: 0 <= i < |args| ==> args[i].lo == lo
      ensures MinOf(tree, ix, lo, |args|, minDocid)
      decreases tree, 2
    {
      hide ArgsReady, MinOf, Evaluable;
      minDocid := None;
      MinOfNothing(tree, ix, lo);
      for i := 0 to |args|
        invariant ArgsReady(ix, m) && forall j :: 0 <= j < |args| ==> args[j].lo == lo
        invariant MinOf(tree, ix, lo, i, minDocid)
      {
        minDocid := SmallerMatch(ix, m, i, minDocid);
      }
    }

    /** docIteratorHasMatchMin: the smallest document that any argument matches. */
    method HasMatchMin(ix: Index, m: Model) returns (b: bool, ghost d: int)
      requires ValidIndex(ix) && Shape() && Evaluable(tree) && Ready(ix, m)
      requires tree.Node? && (tree.op.OR? || tree.op.SUM? || tree.op.WSUM?)
      modifies Repr
      ensures Ready(ix, m) && lo == old(lo)
      ensures b ==> PointsAt(d) && IsFirst(tree, ix, lo, d)
      ensures !b ==> NoneFrom(tree, ix, lo)
      decreases tree, 3
    {
      hide Ready, ArgsReady, Matches, NoneFrom, NoneBetween, IsFirst, Evaluable, InStep;
      OpenReady(ix, m);
      ScoreInStep(ix);
      var minDocid := MinOverArgs(ix, m);
      AnyMin(tree, ix, lo, minDocid);
      if minDocid.Some? {
        cache := At(minDocid.value);
        b, d := true, minDocid.value;
      } else {
        NoneMeansUncached(ix);
        b, d := false, 0;
      }
      ScoreInStep(ix);
      CloseReady(ix, m);
    }

    /** The AND form of docIteratorHasMatch. */
    method HasMatchAnd(ix: Index, m: Model) returns (b: bool, ghost d: int)
      requires ValidIndex(ix) && Shape() && Evaluable(tree) && Ready(ix, m) && tree.Node? && tree.op.AND?
      modifies Repr
      ensures Ready(ix, m) && lo == old(lo)
      ensures b ==> PointsAt(d) && IsFirst(tree, ix, lo, d)
      ensures !b ==> NoneFrom(tree, ix, lo)
      decreases tree, 3
    {
      hide Ready, ArgsReady, Matches, NoneFrom, NoneBetween, IsFirst, Evaluable, Conj;
      NonEmpty(tree);
      OpenReady(ix, m);
      AndIsConj(tree, ix);
      assert Trailing(ix, lo) by {
        assert InStepAt(ix, 0, args[0].lo);
        forall i | 0 <= i < |args| ensures NoneBetween(Conj(tree), ix, lo, args[i].lo) {
          assert InStepAt(ix, i, args[i].lo);
        }
      }
      b, d := HasMatchAll(ix, m, lo);
      assert InStep(ix) by {
        forall i | 0 <= i < |args| ensures InStepAt(ix, i, args[i].lo) {}
      }
      if !b {
        NoneMeansUncached(ix);
      }
      CloseReady(ix, m);
    }

    /** docIteratorHasMatch: whether a match is left, found without passing any match. */
    method HasMatch(ix: Index, m: Model) returns (b: bool, ghost d: int)
      requires ValidIndex(ix) && Shape() && Evaluable(tree) && Ready(ix, m)
      modifies Repr
      ensures Ready(ix, m) && lo == old(lo)
      ensures b ==> PointsAt(d) && IsFirst(tree, ix, lo, d)
      ensures !b ==> NoneFrom(tree, ix, lo)
      decreases tree, 4
    {
      hide Matches, NoneFrom, IsFirst, Materialises, ArgsReady, Evaluable;
      if tree.IsIop() {
        FirstInList(list.postings, tree, ix, docIndex, lo);
        b, d := docIndex < list.df, if docIndex < list.df then list.postings[docIndex].docid else 0;
      } else if tree.op.SCORE? {
        b, d := HasMatchFirst(ix, m);
      } else if tree.op.AND? {
        b, d := HasMatchAnd(ix, m);
      } else {
        b, d := HasMatchMin(ix, m);
      }
    }

    lemma OpenReady(ix: Index, m: Model)
      requires Shape() && Ready(ix, m) && !tree.IsIop()
      ensures StatsReady(ix, m) && ArgsReady(ix, m) && InStep(ix) && CacheReady(ix)
    {
    }

    lemma CloseReady(ix: Index, m: Model)
      requires Shape() && !tree.IsIop() && StatsReady(ix, m) && ArgsReady(ix, m) && InStep(ix) && CacheReady(ix)
      ensures Ready(ix, m)
    {
    }

    lemma ArgReady(ix: Index, m: Model, i: nat)
      requires Shape() && ArgsReady(ix, m) && i < |args|
      ensures args[i].Ready(ix, m)
    {
    }

    lemma AllArgsReady(ix: Index, m: Model)
      requires Shape() && forall i :: 0 <= i < |args| ==> args[i].Ready(ix, m)
      ensures ArgsReady(ix, m)
    {
    }

    /** A node without matches has none cached. */
    lemma NoneMeansUncached(ix: Index)
      requires Shape() && NoneFrom(tree, ix, lo)
      requires cache.At? ==> IsFirst(tree, ix, lo, cache.docid)
      ensures CacheReady(ix)
    {
    }

    lemma NothingCached(ix: Index)
      requires Shape() && !cache.At?
      ensures CacheReady(ix)
    {
    }

    /** docIteratorAdvancePast (`past`) and docIteratorAdvanceTo. */
    method Advance(ix: Index, ghost m: Model, target: int, past: bool)
      requires Shape() && Ready(ix, m)
      modifies Repr
      ensures Ready(ix, m) && lo == Later(old(lo), target, past)
      decreases tree, 2
    {
      hide ListReady, Later;
      if tree.IsIop() {
        SeekList(ix, target, past);
      } else {
        AdvanceScoreNode(ix, m, target, past);
      }
    }

    // ----- Scoring the match

    /** docIteratorGetMatchPosting. */
    function Posting(): (p: Posting)
      requires tree.IsIop() && Pointing()
      reads this, list
    {
      list.postings[docIndex]
    }

    lemma PostingIs(ix: Index, m: Model, d: int)
      requires Shape() && tree.IsIop() && Ready(ix, m) && PointsAt(d)
      ensures Pointing() && Posting().docid == d && Posting().positions == Positions(tree, ix, d)
    {
      FoundAt(list.postings, ix.numDocs, docIndex);
    }

    predicate HasMatchCache()
      requires !cache.Unset?
      reads this
    {
      cache.At?
    }

    /** The score of a SCORE node, from the posting its argument points at and the cached statistics. */
    method ScoreLeaf(ix: Index, m: Model) returns (s: Option<real>)
      requires Shape() && Evaluable(tree) && Ready(ix, m) && tree.Node? && tree.op.SCORE? && cache.At?
      ensures s == Score(tree, ix, m, cache.docid)
    {
      hide Positions, Ready, Evaluable, ArgsReady, PointsAt, FieldName, Df, Matches;
      ScoreFirst(tree, ix, lo);
      OpenReady(ix, m);
      ArgReady(ix, m, 0);
      ScoreArg(tree);
      args[0].PostingIs(ix, m, cache.docid);
      var posting := args[0].Posting();
      match m {
        case UnrankedBoolean => s := if HasMatchCache() then Some(1.0) else Some(0.0);
        case RankedBoolean => s := if HasMatchCache() then Some(posting.Tf() as real) else Some(0.0);
        case BM25(_, _) =>
          var docLen := ix.fieldLength(FieldName(args[0].tree), posting.docid);
          s := if HasMatchCache() then Bm25Weight(m, idf, avgDocLen, posting.Tf(), docLen) else Some(0.0);
      }
    }

    /** One argument's score joins the running score. */
    method JoinArg(ix: Index, m: Model, docid: int, i: nat, acc: real) returns (r: Option<real>)
      requires ValidIndex(ix) && Shape() && Evaluable(tree) && ArgsReady(ix, m) && tree.Node? && i < |args|
      requires !args[i].tree.IsIop() && args[i].PointsAt(docid) && Matches(args[i].tree, ix, docid)
      requires Accumulated(tree, ix, m, docid, i) == Some(acc)
      modifies args[i].Repr
      ensures ArgsReady(ix, m) && args[i].lo == old(args[i].lo) && args[i].PointsAt(docid)
      ensures r == Accumulated(tree, ix, m, docid, i + 1)
      decreases tree, 1
    {
      hide Ready, Matches, Evaluable, Score, PointsAt, Join, WeightAt, Accumulated, Shape;
      Parts();
      ArgsEvaluable(tree);
      args[i].Points(docid);
      AccumulatedStep(tree, ix, m, docid, i);
      var s := args[i].GetScore(ix, m);
      args[i].CachePoints(docid);
      r := if s.None? then None else Some(Join(tree.op, i == 0, acc, WeightAt(tree, i), s.value));
    }

    /** The loop of an AND: every argument matches the cached document. */
    method ScoreAll(ix: Index, m: Model, docid: int) returns (acc: Option<real>)
      requires ValidIndex(ix) && Shape() && Evaluable(tree) && ArgsReady(ix, m) && tree.Node? && tree.op.AND?
      requires AlignedUpTo(docid, |args|) && Matches(tree, ix, docid)
      modifies argsRepr
      ensures ArgsReady(ix, m) && AlignedUpTo(docid, |args|)
      ensures forall j :: 0 <= j < |args| ==> args[j].lo == old(args[j].lo)
      ensures acc == Accumulated(tree, ix, m, docid, |args|)
      decreases tree, 3
    {
      hide Ready, Matches, Evaluable, PointsAt, Accumulated, ArgsReady, Shape;
      Parts();
      NothingAccumulated(tree, ix, m, docid);
      acc := Some(0.0);
      for i := 0 to |args|
        invariant ArgsReady(ix, m) && AlignedUpTo(docid, |args|)
        invariant forall j :: 0 <= j < |args| ==> args[j].lo == old(args[j].lo)
        invariant acc.Some? && acc == Accumulated(tree, ix, m, docid, i)
      {
        ScoreArgs(tree, i);
        AndMatchesArg(tree, ix, docid, i);
        acc := JoinArg(ix, m, docid, i, acc.value);
        if acc.None? {
          AccumulatedNone(tree, ix, m, docid, i + 1, |args|);
          return;
        }
      }
    }

    /** An argument of OR, SUM or WSUM joins the running score if it matches the document. */
    method JoinIfMatching(ix: Index, m: Model, docid: int, i: nat, acc: real) returns (r: Option<real>)
      requires ValidIndex(ix) && Shape() && Evaluable(tree) && ArgsReady(ix, m) && MatchesAny(tree) && i < |args|
      requires args[i].lo == lo && IsFirst(tree, ix, lo, docid)
      requires Accumulated(tree, ix, m, docid, i) == Some(acc)
      modifies args[i].Repr
      ensures ArgsReady(ix, m) && args[i].lo == old(args[i].lo)
      ensures r == Accumulated(tree, ix, m, docid, i + 1)
      decreases tree, 2
    {
      hide Ready, Matches, Evaluable, Score, PointsAt, Join, WeightAt, Accumulated, IsFirst, Shape;
      Parts();
      ArgsEvaluable(tree);
      ScoreArgs(tree, i);
      AccumulatedStep(tree, ix, m, docid, i);
      ArgFirst(tree, ix, lo, docid, i);
      var b, d := args[i].HasMatch(ix, m);
      if b {
        args[i].Points(d);
      }
      if b && args[i].GetMatch() == docid {
        r := JoinArg(ix, m, docid, i, acc);
      } else {
        r := Some(acc);
      }
    }

    /** The loop of OR, SUM and WSUM: only arguments that match the cached document take part. */
    method ScoreMatching(ix: Index, m: Model, docid: int) returns (acc: Option<real>)
      requires ValidIndex(ix) && Shape() && Evaluable(tree) && ArgsReady(ix, m) && MatchesAny(tree)
      requires IsFirst(tree, ix, lo, docid) && forall i :: 0 <= i < |args| ==> args[i].lo == lo
      modifies argsRepr
      ensures ArgsReady(ix, m) && forall i :: 0 <= i < |args| ==> args[i].lo == lo
      ensures acc == Accumulated(tree, ix, m, docid, |args|)
      decreases tree, 3
    {
      hide Ready, Matches, Evaluable, PointsAt, Accumulated, IsFirst, ArgsReady;
      NothingAccumulated(tree, ix, m, docid);
      acc := Some(0.0);
      for i := 0 to |args|
        invariant ArgsReady(ix, m) && forall j :: 0 <= j < |args| ==> args[j].lo == lo
        invariant acc.Some? && acc == Accumulated(tree, ix, m, docid, i)
      {
        acc := JoinIfMatching(ix, m, docid, i, acc.value);
        if acc.None? {
          AccumulatedNone(tree, ix, m, docid, i + 1, |args|);
          return;
        }
      }
    }

    /** getScore, for the document the node's match cache holds. */
    method GetScore(ix: Index, m: Model) returns (s: Option<real>)
      requires ValidIndex(ix) && Shape() && Evaluable(tree) && Ready(ix, m) && !tree.IsIop() && cache.At?
      modifies Repr
      ensures Ready(ix, m) && lo == old(lo) && cache == old(cache)
      ensures s == Score(tree, ix, m, cache.docid)
      decreases tree, 4
    {
      hide Ready, Matches, Evaluable, ArgsReady, IsFirst, PointsAt, Accumulated, InStepAt;
      NonEmpty(tree);
      OpenReady(ix, m);
      if !OpSupported(tree.op, m) {
        return None;
      }
      if tree.op.SCORE? {
        s := ScoreLeaf(ix, m);
      } else if m.UnrankedBoolean? {
        return if HasMatchCache() then Some(1.0) else Some(0.0);
      } else {
        var docid := GetMatch();
        var acc;
        if tree.op.AND? {
          FirstLeavesNone(tree, ix, lo, docid);
          acc := ScoreAll(ix, m, docid);
        } else {
          ScoreInStep(ix);
          acc := ScoreMatching(ix, m, docid);
          ScoreInStep(ix);
        }
        CloseReady(ix, m);
        s := if acc.None? then None else Some(Finish(tree, acc.value));
      }
    }

    // ----- Building the inverted list of a node

    /** Once the first argument is past a common document, the search goes on behind it. */
    lemma TrailingPast(ix: Index, m: Model, from: int, d: int)
      requires Shape() && args != []
      requires IsFirst(Conj(tree), ix, from, d)
      requires forall i :: 1 <= i < |args| ==> NoneBetween(Conj(tree), ix, from, args[i].lo)
      requires args[0].lo == d + 1
      ensures Trailing(ix, d + 1)
    {
    }

    /** The position lists of all arguments in the document they point at. */
    method CollectPositions(ix: Index, m: Model, docid: int) returns (lists: seq<seq<int>>)
      requires ValidIndex(ix) && Shape() && WellTyped(tree) && tree.IsIop() && ArgsReady(ix, m)
      requires AlignedUpTo(docid, |args|)
      ensures lists == ArgPositions(tree, ix, docid)
    {
      hide Ready, PointsAt, Positions, Shape;
      Parts();
      lists := [];
      for i := 0 to |args|
        invariant |lists| == i && forall j :: 0 <= j < i ==> lists[j] == Positions(args[j].tree, ix, docid)
      {
        IopArgs(tree, i);
        ArgReady(ix, m, i);
        args[i].PostingIs(ix, m, docid);
        lists := lists + [args[i].Posting().positions];
      }
    }

    /** The list is complete for the documents below `from`. */
    method AppendMatches(ix: Index, docid: int, positions: seq<int>, ghost from: int)
      requires ValidIndex(ix) && tree.IsIop() && list.Valid() && CompleteBelow(list.postings, tree, ix, from)
      requires from <= docid && NoneBetween(tree, ix, from, docid) && positions == Positions(tree, ix, docid)
      modifies list
      ensures list.Valid() && CompleteBelow(list.postings, tree, ix, docid + 1)
    {
      Extend(list.postings, tree, ix, from, docid);
      if |positions| > 0 {
        AppendNonEmpty(ix, docid, positions, from);
      }
    }

    method AppendNonEmpty(ix: Index, docid: int, positions: seq<int>, ghost from: int)
      requires ValidIndex(ix) && tree.IsIop() && list.Valid() && CompleteBelow(list.postings, tree, ix, from)
      requires from <= docid && NoneBetween(tree, ix, from, docid)
      requires positions == Positions(tree, ix, docid) && positions != []
      modifies list
      ensures list.Valid() && CompleteBelow(list.postings, tree, ix, docid + 1)
    {
      ghost var ps := list.postings;
      Extend(ps, tree, ix, from, docid);
      assert Accepts(ps, docid);
      var added := list.AppendPosting(docid, positions);
    }

    /** NEAR/n: visit the documents common to all arguments and sweep each one. */
    method EvaluateNear(ix: Index, m: Model)
      requires ValidIndex(ix) && Shape() && Evaluable(tree) && ArgsReady(ix, m) && Trailing(ix, 0)
      requires tree.Node? && tree.op.NEAR?
      modifies this`cache, list, argsRepr
      ensures list.Valid() && Materialises(list.postings, tree, ix)
    {
      hide Ready, NoneBetween, Matches, NoneFrom, IsFirst, PointsAt, Evaluable, Positions, Later;
      list.Clear();
      NonEmpty(tree);
      TypedArgs(tree);
      NothingBelowZero(tree, ix);
      ghost var from := 0;
      ghost var d;
      var more;
      more, d := HasMatchAll(ix, m, from);
      while more
        invariant list.Valid() && CompleteBelow(list.postings, tree, ix, from)
        invariant ArgsReady(ix, m) && Trailing(ix, from)
        invariant more ==> AlignedUpTo(d, |args|) && IsFirst(Conj(tree), ix, from, d)
        invariant !more ==> NoneFrom(Conj(tree), ix, from)
        decreases more, ix.numDocs - from
      {
        from := NearDocument(ix, m, from, d);
        more, d := HasMatchAll(ix, m, from);
      }
      ConjNone(tree, ix, from);
      Complete(list.postings, tree, ix, from);
    }

    /** Sweep the document all arguments point at, and store its matches. */
    method SweepNear(ix: Index, m: Model, docid: int, ghost from: int)
      requires ValidIndex(ix) && Shape() && Evaluable(tree) && ArgsReady(ix, m)
      requires tree.Node? && tree.op.NEAR? && args != []
      requires list.Valid() && CompleteBelow(list.postings, tree, ix, from)
      requires AlignedUpTo(docid, |args|) && from <= docid && NoneBetween(tree, ix, from, docid)
      modifies list
      ensures list.Valid() && CompleteBelow(list.postings, tree, ix, docid + 1)
    {
      hide Ready, NoneBetween, Matches, PointsAt, Evaluable, Positions, CompleteBelow, ArgsReady;
      TypedArgs(tree);
      var lists := CollectPositions(ix, m, docid);
      ArgsOrdered(tree, ix, docid);
      var positions := Near.WithinDoc(lists, tree.op.n);
      PositionsOfNode(tree, ix, docid);
      AppendMatches(ix, docid, positions, from);
    }

    /** One round of NEAR: sweep the common document, then move the first argument past it. */
    method NearDocument(ix: Index, m: Model, ghost from: int, ghost d: int) returns (ghost next: int)
      requires ValidIndex(ix) && Shape() && Evaluable(tree) && ArgsReady(ix, m) && Trailing(ix, from)
      requires tree.Node? && tree.op.NEAR? && args != []
      requires list.Valid() && CompleteBelow(list.postings, tree, ix, from)
      requires AlignedUpTo(d, |args|) && IsFirst(Conj(tree), ix, from, d)
      modifies list, args[0].Repr
      ensures from < next <= ix.numDocs
      ensures list.Valid() && CompleteBelow(list.postings, tree, ix, next)
      ensures ArgsReady(ix, m) && Trailing(ix, next)
    {
      hide Ready, NoneBetween, Matches, NoneFrom, IsFirst, PointsAt, Evaluable, Positions, Later, CompleteBelow;
      args[0].Points(d);
      var docid := args[0].GetMatch();
      FirstLeavesNone(Conj(tree), ix, from, docid);
      TypedArgs(tree);
      ConjNone(tree, ix, from);
      MatchesInCollection(Conj(tree), ix, docid);
      SweepNear(ix, m, docid, from);
      ArgReady(ix, m, 0);
      args[0].Behind(ix, m, docid);
      LaterIs(args[0].lo, docid, true);
      args[0].Advance(ix, m, docid, true);
      TrailingPast(ix, m, from, docid);
      next := docid + 1;
    }

    /** A node that points at a document has not passed it. */
    lemma Behind(ix: Index, m: Model, d: int)
      requires Shape() && Ready(ix, m) && PointsAt(d)
      ensures lo <= d
    {
    }

    lemma ListCounts(ix: Index)
      requires ListReady(ix)
      ensures 0 <= docIndex <= |list.postings| == list.df
    {
    }

    /** An argument of SYN hands over its positions in `docid`, if it points there, and moves on. */
    method TakeIfAt(ix: Index, m: Model, docid: int) returns (positions: seq<int>)
      requires ValidIndex(ix) && Shape() && tree.IsIop() && Ready(ix, m)
      requires lo <= docid && NoneBetween(tree, ix, lo, docid)
      modifies this
      ensures Ready(ix, m) && lo == docid + 1
      ensures positions == Positions(tree, ix, docid)
    {
      hide Positions, Later, Matches, NoneBetween, Materialises, StandsAt, Shape;
      LaterIs(lo, docid, true);
      assert ListReady(ix);
      ListCounts(ix);
      if docIndex < list.df && GetMatch() == docid {
        PostingIs(ix, m, docid);
        positions := Posting().positions;
        SeekList(ix, docid, true);
      } else {
        PassedBy(list.postings, tree, ix, docIndex, lo, docid);
        positions := [];
        lo := docid + 1;
      }
    }

    /** The positions of every argument that points at `docid`. */
    method GatherSyn(ix: Index, m: Model, docid: int) returns (locations: seq<int>)
      requires ValidIndex(ix) && Shape() && ArgsReady(ix, m)
      requires forall i :: 0 <= i < |args| ==> args[i].tree.IsIop()
      requires lo <= docid && forall i :: 0 <= i < |args| ==>
               args[i].lo == lo && NoneBetween(args[i].tree, ix, lo, docid)
      modifies argsRepr
      ensures ArgsReady(ix, m) && forall i :: 0 <= i < |args| ==> args[i].lo == docid + 1
      ensures locations == Flatten(ArgPositions(tree, ix, docid))
    {
      hide Ready, NoneBetween, Positions, Evaluable, Flatten, ArgPositions, Shape;
      Parts();
      locations := [];
      FlattenNone();
      for i := 0 to |args|
        invariant ArgsReady(ix, m)
        invariant forall j :: 0 <= j < i ==> args[j].lo == docid + 1
        invariant forall j :: i <= j < |args| ==> args[j].lo == lo
        invariant locations == Flatten(ArgPositions(tree, ix, docid)[..i])
      {
        var positions := args[i].TakeIfAt(ix, m, docid);
        FlattenNext(ArgPositions(tree, ix, docid), i);
        locations := locations + positions;
      }
      FlattenWhole(ArgPositions(tree, ix, docid));
    }

    /** SYN: merge the argument lists, one document at a time in docid order. */
    method EvaluateSyn(ix: Index, m: Model)
      requires ValidIndex(ix) && Shape() && Evaluable(tree) && ArgsReady(ix, m) && tree.Node? && tree.op.SYN?
      requires lo == 0 && forall i :: 0 <= i < |args| ==> args[i].lo == 0
      modifies this`lo, list, argsRepr
      ensures list.Valid() && Materialises(list.postings, tree, ix)
    {
      hide Ready, NoneBetween, Matches, NoneFrom, PointsAt, Evaluable, Positions, CompleteBelow, ArgsReady;
      list.Clear();
      TypedArgs(tree);
      NothingBelowZero(tree, ix);
      var minDocid := MinOverArgs(ix, m);
      while minDocid.Some?
        invariant list.Valid() && CompleteBelow(list.postings, tree, ix, lo)
        invariant ArgsReady(ix, m) && forall i :: 0 <= i < |args| ==> args[i].lo == lo
        invariant MinOf(tree, ix, lo, |args|, minDocid)
        decreases minDocid.Some?, ix.numDocs - lo
      {
        AppendUnion(ix, m, minDocid.value);
        minDocid := MinOverArgs(ix, m);
      }
      UnionNone(tree, ix, lo);
      Complete(list.postings, tree, ix, lo);
    }

    /** One posting of SYN: the sorted union of the positions in the smallest document. */
    method AppendUnion(ix: Index, m: Model, docid: int)
      requires ValidIndex(ix) && Shape() && Evaluable(tree) && ArgsReady(ix, m) && tree.Node? && tree.op.SYN?
      requires list.Valid() && CompleteBelow(list.postings, tree, ix, lo)
      requires forall i :: 0 <= i < |args| ==> args[i].lo == lo
      requires MinOf(tree, ix, lo, |args|, Some(docid))
      modifies this`lo, list, argsRepr
      ensures lo == docid + 1
      ensures list.Valid() && CompleteBelow(list.postings, tree, ix, lo)
      ensures ArgsReady(ix, m) && forall i :: 0 <= i < |args| ==> args[i].lo == lo
    {
      hide Ready, NoneBetween, Matches, NoneFrom, Evaluable, Positions, CompleteBelow, ArgsReady, MinOf;
      TypedArgs(tree);
      UnionOf(tree, ix, lo, docid);
      IopNode(tree);
      var locations := GatherSyn(ix, m, docid);
      locations := SortedSet(locations);
      AppendNonEmpty(ix, docid, locations, lo);
      lo := docid + 1;
    }

    // ----- WINDOW/n

    predicate AtMost(max: int)
      reads this, list
    {
      Pointing() && GetMatch() <= max
    }

    predicate Above(max: int)
      reads this, list
    {
      Pointing() && max < GetMatch()
    }

    /** This argument points at a document, and has passed no document of `common` from `from` on. */
    ghost predicate Front(ix: Index, m: Model, common: Qry, from: int)
      requires Shape()
      reads Repr
    {
      Ready(ix, m) && Pointing() && from <= lo && NoneBetween(common, ix, from, lo)
    }

    ghost predicate InFront(ix: Index, m: Model, from: int)
      requires Shape()
      reads argsRepr
    {
      forall i :: 0 <= i < |args| ==> args[i].Front(ix, m, Conj(tree), from)
    }

    /** Where a list node points is its first match. */
    lemma PointingIsFirst(ix: Index, m: Model, common: Qry, from: int)
      requires Shape() && tree.IsIop() && Front(ix, m, common, from)
      ensures from <= lo && NoneBetween(common, ix, from, lo) && IsFirst(tree, ix, lo, GetMatch())
    {
      FirstInList(list.postings, tree, ix, docIndex, lo);
    }

    /** The largest document the arguments point at. */
    method MaxDocid() returns (max: int, ghost k: nat)
      requires args != [] && forall i :: 0 <= i < |args| ==> args[i].Pointing()
      ensures forall i :: 0 <= i < |args| ==> args[i].AtMost(max)
      ensures k < |args| && args[k].PointsAt(max)
    {
      max, k := args[0].GetMatch(), 0;
      for i := 1 to |args|
        invariant k < |args| && args[k].PointsAt(max)
        invariant forall j :: 0 <= j < i ==> args[j].AtMost(max)
      {
        if args[i].GetMatch() > max {
          max, k := args[i].GetMatch(), i;
        }
      }
    }

    /** One argument catches up with the largest document. */
    method CatchUp(ix: Index, m: Model, max: int, ghost common: Qry, ghost from: int) returns (b: bool, equal: bool)
      requires ValidIndex(ix) && Shape() && Evaluable(tree) && tree.IsIop()
      requires Front(ix, m, common, from) && AtMost(max) && from <= max && NoneBetween(common, ix, from, max)
      modifies Repr
      ensures b ==> Front(ix, m, common, from) && if equal then PointsAt(max) else Above(max)
      ensures !b ==> NoneFrom(tree, ix, lo) && NoneBetween(common, ix, from, lo)
    {
      hide Ready, NoneFrom, IsFirst, Evaluable, Later, NoneBetween;
      b, equal := true, true;
      if GetMatch() < max {
        LaterIs(lo, max, false);
        ghost var d;
        b, d := MatchFrom(ix, m, max, false);
        if b {
          Points(d);
          FirstLeavesNone(tree, ix, lo, d);
        }
      }
      equal := b && GetMatch() == max;
    }

    /** Bring every argument up to the largest document; they may overshoot it. */
    method AlignToMax(ix: Index, m: Model, max: int, ghost from: int) returns (allMatch: bool, exhausted: bool)
      requires ValidIndex(ix) && Shape() && Evaluable(tree) && tree.IsIop() && InFront(ix, m, from)
      requires from <= max && NoneBetween(Conj(tree), ix, from, max)
      requires forall i :: 0 <= i < |args| ==> args[i].AtMost(max)
      modifies argsRepr
      ensures exhausted ==> NoneFrom(Conj(tree), ix, from)
      ensures !exhausted ==> InFront(ix, m, from)
      ensures !exhausted && allMatch ==> AlignedUpTo(max, |args|)
      ensures !exhausted && !allMatch ==> exists i :: 0 <= i < |args| && args[i].Above(max)
    {
      hide Front, NoneFrom, NoneBetween, Evaluable, PointsAt, Conj, AtMost, Above, Ready, Shape;
      Parts();
      TypedArgs(tree);
      ArgsEvaluable(tree);
      IopNode(tree);
      allMatch := true;
      for i := 0 to |args|
        invariant InFront(ix, m, from)
        invariant forall j :: i <= j < |args| ==> args[j].AtMost(max)
        invariant allMatch ==> AlignedUpTo(max, i)
        invariant !allMatch ==> exists j :: 0 <= j < i && args[j].Above(max)
      {
        var b, equal := args[i].CatchUp(ix, m, max, Conj(tree), from);
        if !b {
          ConjExhausted(tree, ix, from, i, args[i].lo);
          return false, true;
        }
        if !equal {
          allMatch := false;
        }
      }
      return allMatch, false;
    }

    /** One argument moves past the document that was just swept. */
    method MovePast(ix: Index, m: Model, docid: int, ghost common: Qry, ghost from: int) returns (b: bool)
      requires ValidIndex(ix) && Shape() && Evaluable(tree) && tree.IsIop() && Front(ix, m, common, from)
               && PointsAt(docid)
      modifies Repr
      ensures b ==> Front(ix, m, common, docid + 1) && Above(docid)
      ensures !b ==> NoneFrom(tree, ix, docid + 1)
    {
      hide Ready, NoneFrom, IsFirst, Evaluable, Later, NoneBetween;
      Behind(ix, m, docid);
      LaterIs(lo, docid, true);
      NothingBetween(common, ix, docid + 1);
      ghost var d;
      b, d := MatchFrom(ix, m, docid, true);
      if b {
        Points(d);
        FirstLeavesNone(tree, ix, lo, d);
      }
    }

    method MoveAllPast(ix: Index, m: Model, docid: int, ghost from: int) returns (more: bool)
      requires ValidIndex(ix) && Shape() && Evaluable(tree) && tree.IsIop() && InFront(ix, m, from)
      requires AlignedUpTo(docid, |args|)
      modifies argsRepr
      ensures more ==> InFront(ix, m, docid + 1) && forall i :: 0 <= i < |args| ==> args[i].Above(docid)
      ensures !more ==> NoneFrom(Conj(tree), ix, docid + 1)
    {
      hide Front, NoneFrom, NoneBetween, Evaluable, PointsAt, Conj, Above, Ready, Shape;
      Parts();
      TypedArgs(tree);
      ArgsEvaluable(tree);
      IopNode(tree);
      NothingBetween(Conj(tree), ix, docid + 1);
      for i := 0 to |args|
        invariant forall j :: 0 <= j < i ==> args[j].Front(ix, m, Conj(tree), docid + 1) && args[j].Above(docid)
        invariant forall j :: i <= j < |args| ==> args[j].Front(ix, m, Conj(tree), from) && args[j].PointsAt(docid)
      {
        var b := args[i].MovePast(ix, m, docid, Conj(tree), from);
        if !b {
          ConjExhausted(tree, ix, docid + 1, i, docid + 1);
          return false;
        }
      }
      return true;
    }

    /** WINDOW first asks every argument for a match. */
    method PrimeArgs(ix: Index, m: Model) returns (more: bool)
      requires ValidIndex(ix) && Shape() && Evaluable(tree) && tree.IsIop() && ArgsReady(ix, m)
      requires forall i :: 0 <= i < |args| ==> args[i].lo == 0
      modifies argsRepr
      ensures more ==> InFront(ix, m, 0) && forall i :: 0 <= i < |args| ==> args[i].Above(-1)
      ensures !more ==> NoneFrom(Conj(tree), ix, 0)
    {
      hide Front, NoneFrom, NoneBetween, Evaluable, PointsAt, Conj, Above, Ready, Shape;
      Parts();
      TypedArgs(tree);
      ArgsEvaluable(tree);
      IopNode(tree);
      NothingBetween(Conj(tree), ix, 0);
      for i := 0 to |args|
        invariant forall j :: 0 <= j < i ==> args[j].Front(ix, m, Conj(tree), 0) && args[j].Above(-1)
        invariant forall j :: i <= j < |args| ==> args[j].Ready(ix, m) && args[j].lo == 0
      {
        var b := args[i].Prime(ix, m, Conj(tree));
        if !b {
          ConjExhausted(tree, ix, 0, i, 0);
          return false;
        }
      }
      return true;
    }

    method Prime(ix: Index, m: Model, ghost common: Qry) returns (b: bool)
      requires ValidIndex(ix) && Shape() && Evaluable(tree) && tree.IsIop() && Ready(ix, m) && lo == 0
      modifies Repr
      ensures b ==> Front(ix, m, common, 0) && Above(-1)
      ensures !b ==> NoneFrom(tree, ix, 0)
    {
      hide Ready, NoneFrom, IsFirst, Evaluable, Later, NoneBetween;
      NothingBetween(common, ix, 0);
      ghost var d;
      b, d := HasMatch(ix, m);
      if b {
        Points(d);
        FirstLeavesNone(tree, ix, lo, d);
      }
    }

    lemma FrontIsReady(ix: Index, m: Model, from: int)
      requires Shape() && InFront(ix, m, from)
      ensures ArgsReady(ix, m) && forall i :: 0 <= i < |args| ==> args[i].Pointing()
    {
    }

    /** The largest document is a document from `from` on, with nothing in common before it. */
    lemma MaxInFront(ix: Index, m: Model, from: int, k: nat, max: int)
      requires ValidIndex(ix) && Shape() && Evaluable(tree) && tree.IsIop() && InFront(ix, m, from)
      requires k < |args| && args[k].PointsAt(max)
      ensures from <= max < ix.numDocs && NoneBetween(Conj(tree), ix, from, max)
    {
      hide Front, NoneBetween, Conj, Ready, IsFirst;
      TypedArgs(tree);
      IopArgs(tree, k);
      args[k].PointingIsFirst(ix, m, Conj(tree), from);
      args[k].Points(max);
      FirstLeavesNone(args[k].tree, ix, args[k].lo, max);
      ConjFollowsArg(tree, ix, from, k, args[k].lo, max);
      MatchesInCollection(args[k].tree, ix, max);
    }

    /** Sweep the document all arguments point at, and store its matches. */
    method SweepWindow(ix: Index, m: Model, docid: int, ghost from: int)
      requires ValidIndex(ix) && Shape() && Evaluable(tree) && ArgsReady(ix, m)
      requires tree.Node? && tree.op.WINDOW? && args != []
      requires list.Valid() && CompleteBelow(list.postings, tree, ix, from)
      requires AlignedUpTo(docid, |args|) && from <= docid && NoneBetween(tree, ix, from, docid)
      modifies list
      ensures list.Valid() && CompleteBelow(list.postings, tree, ix, docid + 1)
    {
      hide Ready, NoneBetween, Matches, PointsAt, Evaluable, Positions, CompleteBelow, ArgsReady;
      TypedArgs(tree);
      var lists := CollectPositions(ix, m, docid);
      ArgsOrdered(tree, ix, docid);
      var positions := Window.WithinDoc(lists, tree.op.n);
      PositionsOfNode(tree, ix, docid);
      AppendMatches(ix, docid, positions, from);
    }

    /** WINDOW/n: intersect the argument lists and sweep each common document. */
    method EvaluateWindow(ix: Index, m: Model)
      requires ValidIndex(ix) && Shape() && Evaluable(tree) && ArgsReady(ix, m) && tree.Node? && tree.op.WINDOW?
      requires forall i :: 0 <= i < |args| ==> args[i].lo == 0
      modifies list, argsRepr
      ensures list.Valid() && Materialises(list.postings, tree, ix)
    {
      hide Ready, NoneBetween, Matches, NoneFrom, PointsAt, Evaluable, Positions, CompleteBelow, ArgsReady, InFront,
        Conj, Above;
      NonEmpty(tree);
      TypedArgs(tree);
      list.Clear();
      NothingBelowZero(tree, ix);
      ghost var from, floor := 0, -1;
      var more := PrimeArgs(ix, m);
      assert more ==> args[0].Above(floor);
      while more
        invariant list.Valid() && CompleteBelow(list.postings, tree, ix, from)
        invariant more ==> InFront(ix, m, from) && exists i :: 0 <= i < |args| && args[i].Above(floor)
        invariant !more ==> NoneFrom(Conj(tree), ix, from)
        decreases more, ix.numDocs - floor
      {
        more, from, floor := WindowRound(ix, m, from, floor);
      }
      ConjNone(tree, ix, from);
      Complete(list.postings, tree, ix, from);
    }

    /** One round of WINDOW: align the arguments and, if they all match, sweep the document. */
    method WindowRound(ix: Index, m: Model, ghost from: int, ghost floor: int)
      returns (more: bool, ghost nextFrom: int, ghost nextFloor: int)
      requires ValidIndex(ix) && Shape() && Evaluable(tree) && tree.Node? && tree.op.WINDOW? && args != []
      requires list.Valid() && CompleteBelow(list.postings, tree, ix, from)
      requires InFront(ix, m, from) && exists i :: 0 <= i < |args| && args[i].Above(floor)
      modifies list, argsRepr
      ensures list.Valid() && CompleteBelow(list.postings, tree, ix, nextFrom)
      ensures more ==> InFront(ix, m, nextFrom) && exists i :: 0 <= i < |args| && args[i].Above(nextFloor)
      ensures more ==> floor < nextFloor < ix.numDocs
      ensures !more ==> NoneFrom(Conj(tree), ix, nextFrom)
    {
      hide Ready, NoneBetween, Matches, NoneFrom, PointsAt, Evaluable, Positions, CompleteBelow, ArgsReady, InFront,
        Conj;
      TypedArgs(tree);
      FrontIsReady(ix, m, from);
      ghost var k;
      var max;
      max, k := MaxDocid();
      MaxInFront(ix, m, from, k, max);
      nextFrom, nextFloor := from, max;
      var allMatch, exhausted := AlignToMax(ix, m, max, from);
      if exhausted {
        return false, from, max;
      }
      if !allMatch {
        return true, from, max;
      }
      FrontIsReady(ix, m, from);
      ConjNone(tree, ix, from);
      SweepWindow(ix, m, max, from);
      more := MoveAllPast(ix, m, max, from);
      nextFrom := max + 1;
    }

    // ----- Initialization

    /** No score node below here has been asked for a match yet. */
    ghost predicate Untouched()
      requires Shape()
      reads Repr
      decreases tree
    {
      && (tree.IsIop() || cache.Unset?)
      && forall i :: 0 <= i < |args| ==> args[i].Untouched()
    }

    method InitializeArgs(ix: Index, m: Model)
      requires ValidIndex(ix) && Shape() && Evaluable(tree) && Untouched()
      modifies argsRepr
      ensures ArgsReady(ix, m) && forall i :: 0 <= i < |args| ==> args[i].lo == 0
      decreases tree, 0
    {
      hide Ready, Evaluable;
      ArgsEvaluable(tree);
      for i := 0 to |args|
        invariant forall j :: 0 <= j < i ==> args[j].Ready(ix, m) && args[j].lo == 0
        invariant forall j :: i <= j < |args| ==> args[j].Untouched()
      {
        args[i].Initialize(ix, m);
      }
    }

    /** evaluate: build the inverted list of this operator. */
    method Evaluate(ix: Index, m: Model)
      requires ValidIndex(ix) && Shape() && Evaluable(tree) && tree.IsIop() && ArgsReady(ix, m)
      requires lo == 0 && forall i :: 0 <= i < |args| ==> args[i].lo == 0
      modifies Repr
      ensures list.Valid() && Materialises(list.postings, tree, ix)
    {
      hide ArgsReady, Evaluable, Materialises, NoneBetween;
      if tree.Term? {
        list.Load(TermList(ix, tree.term, tree.field));
        TermMaterialises(tree, ix);
      } else if tree.op.SYN? {
        EvaluateSyn(ix, m);
      } else if tree.op.NEAR? {
        forall i | 0 <= i < |args| ensures NoneBetween(Conj(tree), ix, 0, args[i].lo) {
          NothingBetween(Conj(tree), ix, 0);
        }
        EvaluateNear(ix, m);
      } else {
        EvaluateWindow(ix, m);
      }
    }

    /** initialize, for an inverted-list node: its iterator starts on the first posting. */
    method InitializeList(ix: Index, m: Model)
      requires ValidIndex(ix) && Shape() && Evaluable(tree) && tree.IsIop() && Untouched()
      modifies Repr
      ensures ListReady(ix) && lo == 0
      decreases tree, 1
    {
      hide ArgsReady, Evaluable, Untouched;
      InitializeArgs(ix, m);
      lo := 0;
      Evaluate(ix, m);
      docIndex, lo := 0, 0;
      StandsAtStart(list.postings, ix.numDocs);
    }

    /** initialize, for a SCORE node: the statistics BM25 needs are computed once. */
    method InitializeStats(ix: Index, m: Model)
      requires Shape() && Evaluable(tree) && tree.Node? && tree.op.SCORE? && ArgsReady(ix, m)
      modifies this`avgDocLen, this`idf
      ensures StatsReady(ix, m)
    {
      hide ArgsReady, Evaluable, FieldName, Df;
      ScoreArg(tree);
      if m.BM25? {
        ArgReady(ix, m, 0);
        args[0].DfIs(ix, m);
        avgDocLen := AvgDocLen(ix, FieldName(args[0].tree));
        idf := Idf(ix, args[0].list.df);
      }
    }

    lemma DfIs(ix: Index, m: Model)
      requires Shape() && tree.IsIop() && Ready(ix, m)
      ensures list.df == Df(tree, ix)
    {
      hide Positions;
      assert StoredDocs(list.postings, ix.numDocs) == Docs(tree, ix);
      DfCountsDocuments(list.postings, ix.numDocs);
    }

    /** initialize. */
    method Initialize(ix: Index, m: Model)
      requires ValidIndex(ix) && Shape() && Evaluable(tree) && Untouched()
      modifies Repr
      ensures Ready(ix, m) && lo == 0
      decreases tree, 2
    {
      hide ArgsReady, Evaluable, ListReady;
      if tree.IsIop() {
        InitializeList(ix, m);
      } else {
        InitializeArgs(ix, m);
        lo := 0;
        if tree.op.SCORE? {
          InitializeStats(ix, m);
        }
        NothingBetween(tree, ix, 0);
        NothingCached(ix);
        CloseReady(ix, m);
      }
    }
  }

  /** The node graph of a tree, as the parser builds it: one new node per operator and term. */
  method Build(tree: Qry) returns (node: QryNode)
    ensures node.Shape() && node.tree == tree && node.Untouched() && fresh(node.Repr)
    decreases tree
  {
    hide QryNode.Shape, QryNode.Untouched;
    var args: seq<QryNode> := [];
    ghost var below: set<object> := {};
    for i := 0 to |tree.Args()|
      invariant |args| == i && fresh(below)
      invariant forall j :: 0 <= j < i ==>
                  args[j].tree == tree.Args()[j] && args[j].Shape() && args[j].Untouched() && args[j].Repr <= below
      invariant forall j, k :: 0 <= j < k < i ==> args[j].Repr !! args[k].Repr
    {
      var arg := Build(tree.Args()[i]);
      args := args + [arg];
      below := below + arg.Repr;
    }
    node := new QryNode(tree, args, below);
  }
}
