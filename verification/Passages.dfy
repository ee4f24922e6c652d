/** The two loops that cut a document body into overlapping windows: for generation, and for reranking. */
module Passages {

  type Tokens = seq<string>

  /** body[from:to], where negative indices count from the end and indices out of range are cut. */
  function Slice(body: Tokens, from: int, to: int): Tokens {
    var lo, hi := Index(|body|, from), Index(|body|, to);
    if lo <= hi then body[lo..hi] else []
  }

  function Index(n: nat, i: int): (r: nat)
    ensures r <= n
  {
    if i >= n then n else if i >= 0 then i else if n + i >= 0 then n + i else 0
  }

  function Start(stride: int, i: nat): int { i * stride }

  function End(n: nat, length: int, stride: int, i: nat): int {
    if Start(stride, i) + length <= n then Start(stride, i) + length else n
  }

  /** The i-th window exists: it starts before the end of the body, and no window before it reached the end. */
  predicate HasWindow(n: nat, length: int, stride: int, count: int, i: nat) {
    && i < count && 0 < n
    && Start(stride, i) < n
    && forall j: nat :: j < i ==> Start(stride, j) + length < n
  }

  ghost predicate Cut(body: Tokens, length: int, stride: int, ws: seq<Tokens>) {
    forall i :: 0 <= i < |ws| ==> ws[i] == Slice(body, Start(stride, i), End(|body|, length, stride, i))
  }

  /** The windows are exactly the existing ones, in order. */
  ghost predicate AreWindows(body: Tokens, length: int, stride: int, count: int, ws: seq<Tokens>) {
    && (forall i: nat :: i < |ws| <==> HasWindow(|body|, length, stride, count, i))
    && Cut(body, length, stride, ws)
  }

  lemma CutNext(body: Tokens, length: int, stride: int, ws: seq<Tokens>)
    requires Cut(body, length, stride, ws)
    ensures Cut(body, length, stride, ws + [Slice(body, Start(stride, |ws|), End(|body|, length, stride, |ws|))])
  {
    hide Start, Slice;
  }

  lemma NothingCut(body: Tokens, length: int, stride: int)
    ensures Cut(body, length, stride, [])
  {
  }

  lemma StartGrows(stride: int, i: nat, j: nat)
    ensures Start(stride, i + 1) == Start(stride, i) + stride && Start(stride, 0) == 0
    ensures i <= j && stride >= 0 ==> Start(stride, i) <= Start(stride, j)
    ensures stride <= 0 ==> Start(stride, i) <= 0
  {
    if i <= j && stride >= 0 {
      assert i * stride <= j * stride;
    }
  }

  /** Windows come without gaps in their numbering. */
  lemma LastWindow(n: nat, length: int, stride: int, count: int, k: nat)
    requires k == 0 || HasWindow(n, length, stride, count, k - 1)
    requires !HasWindow(n, length, stride, count, k)
    ensures forall i: nat :: i < k <==> HasWindow(n, length, stride, count, i)
  {
    hide Start;
    forall i: nat ensures i < k <==> HasWindow(n, length, stride, count, i) {
      if i < k {
        StartGrows(stride, i, k - 1);
      } else {
        StartGrows(stride, k, i);
      }
    }
  }

  // ----- The loops

  /** How many windows the passage builder may cut: none of negative length, and one if they do not advance. */
  function BuilderCount(length: int, stride: int, count: int): int {
    if length < 0 then 0 else if stride <= 0 && count > 1 then 1 else count
  }

  /** The loop of the passage builder: it stops when a window ends no later than the one before. */
  method BuildPassages(body: Tokens, length: int, stride: int, count: int) returns (ws: seq<Tokens>)
    ensures AreWindows(body, length, stride, BuilderCount(length, stride, count), ws)
  {
    hide Start, Cut, Slice;
    ws := [];
    NothingCut(body, length, stride);
    var start, previousEnd := 0, -1;
    StartGrows(stride, 0, 0);
    while start < |body| && |ws| < count
      invariant start == Start(stride, |ws|)
      invariant previousEnd == if |ws| == 0 then -1 else End(|body|, length, stride, |ws| - 1)
      invariant |ws| == 0 || HasWindow(|body|, length, stride, BuilderCount(length, stride, count), |ws| - 1)
      invariant Cut(body, length, stride, ws)
      decreases count - |ws|
    {
      var end := if start + length <= |body| then start + length else |body|;
      NextBuilt(|body|, length, stride, count, |ws|);
      if end <= previousEnd {
        break;
      }
      CutNext(body, length, stride, ws);
      StartGrows(stride, |ws|, |ws|);
      ws := ws + [Slice(body, start, end)];
      previousEnd := end;
      start := start + stride;
    }
    LastWindow(|body|, length, stride, BuilderCount(length, stride, count), |ws|);
  }

  /** Ending after the window before is what it takes to be the next window of the builder. */
  lemma NextBuilt(n: nat, length: int, stride: int, count: int, k: nat)
    requires 0 < n && k < count && Start(stride, k) < n
    requires k == 0 || HasWindow(n, length, stride, BuilderCount(length, stride, count), k - 1)
    ensures HasWindow(n, length, stride, BuilderCount(length, stride, count), k)
            <==> (if k == 0 then -1 else End(n, length, stride, k - 1)) < End(n, length, stride, k)
  {
    hide Start;
    StartGrows(stride, 0, 0);
    if k > 0 {
      StartGrows(stride, k - 1, k);
    }
  }

  /** The loop of the reranker: it stops when a window reaches the end of the body. */
  method BodyWindows(body: Tokens, length: int, stride: int, count: int) returns (ws: seq<Tokens>)
    ensures AreWindows(body, length, stride, count, ws)
  {
    hide Start, Cut, Slice;
    ws := [];
    NothingCut(body, length, stride);
    if |body| == 0 {
      return;
    }
    var start := 0;
    StartGrows(stride, 0, 0);
    while start < |body| && |ws| < count
      invariant start == Start(stride, |ws|)
      invariant |ws| == 0 || HasWindow(|body|, length, stride, count, |ws| - 1)
      invariant forall j: nat :: j < |ws| ==> Start(stride, j) + length < |body|
      invariant Cut(body, length, stride, ws)
      decreases count - |ws|
    {
      var end := if start + length <= |body| then start + length else |body|;
      CutNext(body, length, stride, ws);
      StartGrows(stride, |ws|, |ws|);
      ws := ws + [Slice(body, start, end)];
      if end >= |body| {
        break;
      }
      start := start + stride;
    }
    LastWindow(|body|, length, stride, count, |ws|);
  }

  // ----- What the windows are

  lemma WindowsAreDetermined(body: Tokens, length: int, stride: int, count: int, a: seq<Tokens>, b: seq<Tokens>)
    requires AreWindows(body, length, stride, count, a) && AreWindows(body, length, stride, count, b)
    ensures a == b
  {
    hide Start, HasWindow, Slice;
    assert !HasWindow(|body|, length, stride, count, |a|) && !HasWindow(|body|, length, stride, count, |b|);
  }

  /**
   The two loops cut the same windows if and only if there is nothing to cut, or lengths are not negative and
   windows advance or one is all there is: otherwise the builder stops where the reranker goes on.
   */
  lemma LoopsAgree(body: Tokens, length: int, stride: int, count: int, built: seq<Tokens>, cut: seq<Tokens>)
    requires AreWindows(body, length, stride, BuilderCount(length, stride, count), built)
    requires AreWindows(body, length, stride, count, cut)
    ensures built == cut <==>
            body == [] || count <= 0 || (length >= 0 && (stride > 0 || |body| <= length || count == 1))
  {
    hide Start, Slice;
    var n := |body|;
    StartGrows(stride, 0, 0);
    assert 0 < |cut| <==> HasWindow(n, length, stride, count, 0);
    assert 0 < |built| <==> HasWindow(n, length, stride, BuilderCount(length, stride, count), 0);
    if BuilderCount(length, stride, count) == count {
      WindowsAreDetermined(body, length, stride, count, built, cut);
    } else if length >= 0 {
      assert 1 < |cut| <==> HasWindow(n, length, stride, count, 1);
      assert !HasWindow(n, length, stride, 1, 1);
    }
  }

  /** Each window starts and ends after its predecessor: none lies inside it. */
  lemma WindowsAdvance(body: Tokens, length: int, stride: int, count: int, ws: seq<Tokens>, i: nat)
    requires stride > 0 && AreWindows(body, length, stride, count, ws) && i + 1 < |ws|
    ensures Start(stride, i) < Start(stride, i + 1)
    ensures End(|body|, length, stride, i) < End(|body|, length, stride, i + 1)
  {
    hide Start, Slice;
    StartGrows(stride, i, i);
    assert HasWindow(|body|, length, stride, count, i + 1);
  }

  ghost predicate Covers(n: nat, length: int, stride: int, ws: nat, p: nat) {
    exists i: nat :: i < ws && Start(stride, i) <= p < End(n, length, stride, i)
  }

  lemma {:induction false} CoveredUpTo(n: nat, length: int, stride: int, i: nat, p: nat)
    requires stride <= length && p < End(n, length, stride, i)
    ensures Covers(n, length, stride, i + 1, p)
  {
    hide Start;
    StartGrows(stride, 0, 0);
    if p < Start(stride, i) {
      StartGrows(stride, i - 1, i);
      CoveredUpTo(n, length, stride, i - 1, p);
      var j: nat :| j < i && Start(stride, j) <= p < End(n, length, stride, j);
      assert j < i + 1;
    }
  }

  /** Every token of the body is in some window if and only if strides leave no gap and the count is large enough. */
  lemma WindowsCover(body: Tokens, length: int, stride: int, count: int, ws: seq<Tokens>)
    requires length > 0 && stride > 0 && AreWindows(body, length, stride, count, ws)
    ensures (forall p: nat :: p < |body| ==> Covers(|body|, length, stride, |ws|, p))
            <==> body == [] || (count > 0 && (|body| <= length
                                              || (stride <= length && Start(stride, count - 1) + length >= |body|)))
  {
    hide Start, Cut, Slice;
    var n := |body|;
    StartGrows(stride, 0, 0);
    if n > 0 && count > 0 && (n <= length || (stride <= length && Start(stride, count - 1) + length >= n)) {
      LastReachesEnd(body, length, stride, count, ws);
      forall p: nat | p < n ensures Covers(n, length, stride, |ws|, p) {
        if n <= length {
          assert Start(stride, 0) <= p < End(n, length, stride, 0);
          assert HasWindow(n, length, stride, count, 0);
        } else {
          CoveredUpTo(n, length, stride, |ws| - 1, p);
        }
      }
    } else if n > 0 {
      var p := if count <= 0 then 0 else if stride > length then length else n - 1;
      forall i: nat | i < |ws| ensures !(Start(stride, i) <= p < End(n, length, stride, i)) {
        assert HasWindow(n, length, stride, count, i);
        StartGrows(stride, i, count - 1);
        StartGrows(stride, 1, i);
        StartGrows(stride, 0, i);
      }
      assert !Covers(n, length, stride, |ws|, p);
    }
  }

  lemma LastReachesEnd(body: Tokens, length: int, stride: int, count: int, ws: seq<Tokens>)
    requires 0 < stride && count > 0 && body != [] && length > 0 && AreWindows(body, length, stride, count, ws)
    requires |body| <= length || (stride <= length && Start(stride, count - 1) + length >= |body|)
    ensures |ws| > 0 && End(|body|, length, stride, |ws| - 1) == |body|
  {
    hide Start, Cut, Slice;
    var n, k := |body|, |ws|;
    StartGrows(stride, 0, 0);
    assert HasWindow(n, length, stride, count, 0);
    assert k > 0 && HasWindow(n, length, stride, count, k - 1) && !HasWindow(n, length, stride, count, k);
    StartGrows(stride, k - 1, count - 1);
    StartGrows(stride, 0, k - 1);
    if k < count && Start(stride, k) < n {
      var j: nat :| j < k && Start(stride, j) + length >= n;
      assert j == k - 1;
    }
  }
}
