/** Inverted lists: postings in docid order, with the collection statistics kept beside them. */
module InvertedLists {
  import opened Sequences

  datatype Posting = Posting(docid: int, positions: seq<int>) {
    function Tf(): nat { |positions| }
  }

  ghost predicate WellFormedPosting(p: Posting, numDocs: nat) {
    && 0 <= p.docid < numDocs
    && p.positions != [] && StrictlyIncreasing(p.positions) && NonNegative(p.positions)
  }

  ghost predicate WellFormed(ps: seq<Posting>, numDocs: nat) {
    && (forall i :: 0 <= i < |ps| ==> WellFormedPosting(ps[i], numDocs))
    && (forall i, j :: 0 <= i < j < |ps| ==> ps[i].docid < ps[j].docid)
  }

  /** The positions a list stores for document `d`; empty when it has no posting for it. */
  function PositionsIn(ps: seq<Posting>, d: int): seq<int> {
    if ps == [] then []
    else if ps[0].docid == d then ps[0].positions
    else PositionsIn(ps[1..], d)
  }

  lemma {:induction false} FoundAt(ps: seq<Posting>, numDocs: nat, i: nat)
    requires WellFormed(ps, numDocs) && i < |ps|
    ensures PositionsIn(ps, ps[i].docid) == ps[i].positions
  {
    if i > 0 {
      FoundAt(ps[1..], numDocs, i - 1);
    }
  }

  lemma {:induction false} NotFound(ps: seq<Posting>, d: int)
    requires forall i :: 0 <= i < |ps| ==> ps[i].docid != d
    ensures PositionsIn(ps, d) == []
  {
    if ps != [] {
      NotFound(ps[1..], d);
    }
  }

  /** What a list stores for `d` is what its posting for `d` holds; there is at most one. */
  lemma {:induction false} Stored(ps: seq<Posting>, numDocs: nat, d: int) returns (i: nat)
    requires WellFormed(ps, numDocs) && PositionsIn(ps, d) != []
    ensures i < |ps| && ps[i].docid == d && ps[i].positions == PositionsIn(ps, d)
  {
    if ps[0].docid == d {
      i := 0;
    } else {
      var j := Stored(ps[1..], numDocs, d);
      i := j + 1;
    }
  }

  lemma {:induction false} Appended(ps: seq<Posting>, p: Posting, d: int)
    requires forall i :: 0 <= i < |ps| ==> ps[i].docid != p.docid
    ensures PositionsIn(ps + [p], d) == if d == p.docid then p.positions else PositionsIn(ps, d)
  {
    if ps != [] {
      assert (ps + [p])[1..] == ps[1..] + [p];
      Appended(ps[1..], p, d);
    }
  }

  /** Two well-formed lists that store the same positions for every document are the same list. */
  lemma {:induction false} SameContentsSameList(ps: seq<Posting>, qs: seq<Posting>, numDocs: nat)
    requires WellFormed(ps, numDocs) && WellFormed(qs, numDocs)
    requires forall d :: PositionsIn(ps, d) == PositionsIn(qs, d)
    ensures ps == qs
  {
    assert |ps| > 0 ==> PositionsIn(qs, ps[0].docid) == ps[0].positions;
    assert |qs| > 0 ==> PositionsIn(ps, qs[0].docid) == qs[0].positions;
    if ps != [] && qs != [] {
      assert PositionsIn(qs, ps[0].docid) == ps[0].positions && PositionsIn(ps, qs[0].docid) == qs[0].positions;
      var i := Stored(qs, numDocs, ps[0].docid);
      var j := Stored(ps, numDocs, qs[0].docid);
      assert ps[0] == qs[0];
      forall d ensures PositionsIn(ps[1..], d) == PositionsIn(qs[1..], d) {
        if d == ps[0].docid {
          NotFound(ps[1..], d);
          NotFound(qs[1..], d);
        } else {
          assert PositionsIn(ps, d) == PositionsIn(qs, d);
        }
      }
      SameContentsSameList(ps[1..], qs[1..], numDocs);
      assert ps == [ps[0]] + ps[1..] && qs == [qs[0]] + qs[1..];
    }
  }

  function Docids(ps: seq<Posting>): (s: set<int>)
    ensures forall d :: d in s <==> exists i :: 0 <= i < |ps| && ps[i].docid == d
  {
    set i | 0 <= i < |ps| :: ps[i].docid
  }

  function StoredDocs(ps: seq<Posting>, numDocs: nat): set<int> {
    set d | 0 <= d < numDocs && PositionsIn(ps, d) != []
  }

  /** df, the number of postings, is the number of documents that have positions. */
  lemma {:induction false} DfCountsDocuments(ps: seq<Posting>, numDocs: nat)
    requires WellFormed(ps, numDocs)
    ensures |ps| == |StoredDocs(ps, numDocs)|
  {
    forall d ensures d in Docids(ps) <==> 0 <= d < numDocs && PositionsIn(ps, d) != [] {
      if d in Docids(ps) {
        var i :| 0 <= i < |ps| && ps[i].docid == d;
        assert WellFormedPosting(ps[i], numDocs);
        FoundAt(ps, numDocs, i);
      } else if PositionsIn(ps, d) != [] {
        var i := Stored(ps, numDocs, d);
      }
    }
    assert Docids(ps) == StoredDocs(ps, numDocs);
    CountDocids(ps, numDocs);
  }

  lemma {:induction false} CountDocids(ps: seq<Posting>, numDocs: nat)
    requires WellFormed(ps, numDocs)
    ensures |Docids(ps)| == |ps|
  {
    if ps != [] {
      var last := |ps| - 1;
      DocidsOfFront(ps, numDocs);
      hide WellFormed;
      CountDocids(ps[..last], numDocs);
    }
  }

  lemma DocidsOfFront(ps: seq<Posting>, numDocs: nat)
    requires WellFormed(ps, numDocs) && ps != []
    ensures var last := |ps| - 1;
            && WellFormed(ps[..last], numDocs)
            && Docids(ps) == Docids(ps[..last]) + {ps[last].docid} && ps[last].docid !in Docids(ps[..last])
  {
    hide WellFormedPosting;
    var last := |ps| - 1;
    var front := ps[..last];
    assert forall i :: 0 <= i < last ==> front[i] == ps[i];
    forall d ensures d in Docids(ps) <==> d in Docids(front) || d == ps[last].docid {
      if i :| 0 <= i < last && ps[i].docid == d {
        assert front[i].docid == d;
      }
    }
  }

  function TotalTf(ps: seq<Posting>): nat {
    if ps == [] then 0 else TotalTf(ps[..|ps| - 1]) + ps[|ps| - 1].Tf()
  }

  /** The append guard: it looks at the last docid only when the list already holds two postings. */
  predicate Accepts(ps: seq<Posting>, docid: int) {
    |ps| > 1 ==> ps[|ps| - 1].docid < docid
  }

  class InvList {
    var postings: seq<Posting>
    var df: nat
    var ctf: nat

    /** df and ctf are the number of postings and of positions; nothing here orders the postings. */
    ghost predicate Valid()
      reads this
    {
      df == |postings| && ctf == TotalTf(postings)
    }

    constructor ()
      ensures Valid() && postings == []
    {
      postings, df, ctf := [], 0, 0;
    }

    method Clear()
      modifies this
      ensures Valid() && postings == []
    {
      postings, df, ctf := [], 0, 0;
    }

    /** Read the postings of a term from the collection. */
    method Load(ps: seq<Posting>)
      modifies this
      ensures Valid() && postings == ps
    {
      postings, df, ctf := [], 0, 0;
      for i := 0 to |ps|
        invariant Valid() && postings == ps[..i]
      {
        assert (postings + [ps[i]])[..|postings|] == postings;
        postings := postings + [ps[i]];
        df := df + 1;
        ctf := ctf + ps[i].Tf();
      }
    }

    /** Append a posting unless the guard refuses it. */
    method AppendPosting(docid: int, positions: seq<int>) returns (added: bool)
      requires Valid()
      modifies this
      ensures Valid()
      ensures added == Accepts(old(postings), docid)
      ensures postings == if added then old(postings) + [Posting(docid, positions)] else old(postings)
    {
      if df > 1 && postings[df - 1].docid >= docid {
        return false;
      }
      var posting := Posting(docid, positions);
      assert (postings + [posting])[..|postings|] == postings;
      postings := postings + [posting];
      df := df + 1;
      ctf := ctf + posting.Tf();
      return true;
    }

    function GetDocid(n: nat): int
      requires n < |postings|
      reads this
    {
      postings[n].docid
    }
  }

  /** The guard keeps a list in order except at its second posting, which it does not check. */
  lemma GuardKeepsOrder(ps: seq<Posting>, p: Posting, numDocs: nat)
    requires WellFormed(ps, numDocs) && WellFormedPosting(p, numDocs) && Accepts(ps, p.docid)
    ensures WellFormed(ps + [p], numDocs) <==> (|ps| == 1 ==> ps[0].docid < p.docid)
  {
    if |ps| == 1 {
      assert (ps + [p])[0] == ps[0] && (ps + [p])[1] == p;
    }
  }

  /** A caller that appends in docid order is never refused and keeps the list well formed. */
  lemma AppendInOrder(ps: seq<Posting>, p: Posting, numDocs: nat)
    requires WellFormed(ps, numDocs) && WellFormedPosting(p, numDocs)
    requires ps != [] ==> ps[|ps| - 1].docid < p.docid
    ensures WellFormed(ps + [p], numDocs)
    ensures forall d :: PositionsIn(ps + [p], d) == if d == p.docid then p.positions else PositionsIn(ps, d)
  {
    hide PositionsIn, WellFormedPosting;
    forall i | 0 <= i < |ps| ensures ps[i].docid < p.docid {
      assert ps[i].docid <= ps[|ps| - 1].docid;
    }
    assert WellFormedPosting(p, numDocs);
    forall d ensures PositionsIn(ps + [p], d) == if d == p.docid then p.positions else PositionsIn(ps, d) {
      Appended(ps, p, d);
    }
  }
}
