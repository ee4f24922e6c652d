/**
 WINDOW/n inside one document: the unordered greedy sweep, the family of matches it finds, and the
 proof that no family of disjoint matches is larger.
 */
module Window {
  import opened Sequences
  import opened Sweeps

  function Current(lists: Lists, c: Tuple): (s: seq<int>)
    requires Within(lists, c)
    ensures |s| == |lists| && forall i :: 0 <= i < |s| ==> s[i] == At(lists, c, i)
  {
    seq(|lists|, i requires 0 <= i < |lists| => At(lists, c, i))
  }

  function High(lists: Lists, c: Tuple): int
    requires Within(lists, c) && |lists| > 0
  {
    Max(Current(lists, c))
  }

  function Low(lists: Lists, c: Tuple): int
    requires Within(lists, c) && |lists| > 0
  {
    Min(Current(lists, c))
  }

  lemma Bounds(lists: Lists, c: Tuple, i: nat)
    requires Within(lists, c) && i < |lists|
    ensures Low(lists, c) <= At(lists, c, i) <= High(lists, c)
  {
    assert Current(lists, c)[i] == At(lists, c, i);
  }

  /** The largest and the smallest position are positions of the tuple. */
  lemma Attained(lists: Lists, c: Tuple) returns (top: nat, bottom: nat)
    requires Within(lists, c) && |lists| > 0
    ensures top < |lists| && At(lists, c, top) == High(lists, c)
    ensures bottom < |lists| && At(lists, c, bottom) == Low(lists, c)
  {
    var s := Current(lists, c);
    top :| 0 <= top < |s| && s[top] == High(lists, c);
    bottom :| 0 <= bottom < |s| && s[bottom] == Low(lists, c);
  }

  /** One position per argument, in any order, all inside a span of `n` positions. */
  predicate IsWindow(lists: Lists, n: int, c: Tuple)
    requires |lists| > 0
  {
    Within(lists, c) && High(lists, c) - Low(lists, c) < n
  }

  ghost predicate WindowFamily(lists: Lists, n: int, heads: Tuple, family: seq<Tuple>)
    requires |lists| > 0
  {
    && (forall a :: 0 <= a < |family| ==> IsWindow(lists, n, family[a]) && From(heads, family[a]))
    && Disjoint(family)
  }

  /** The argument whose cursor a failed window moves: the first one that shows the smallest position. */
  function LowestArg(lists: Lists, heads: Tuple): (k: nat)
    requires Within(lists, heads) && |lists| > 0
    ensures k < |lists|
  {
    FirstMin(Current(lists, heads))
  }

  function Greedy(lists: Lists, n: int, heads: Tuple): seq<Tuple>
    requires Cursors(lists, heads) && |lists| > 0
    decreases Left(lists, heads, |lists|)
  {
    if OutOfDoc(lists, heads) then []
    else if IsWindow(lists, n, heads) then
      LeftAfterBump(lists, heads, |lists|);
      [heads] + Greedy(lists, n, Bump(heads))
    else
      var i := LowestArg(lists, heads);
      LeftAfterSkip(lists, heads, i, |lists|);
      Greedy(lists, n, heads[i := heads[i] + 1])
  }

  /** What WINDOW/n reports from the given cursors on: the largest position of each window. */
  function Matches(lists: Lists, n: int, heads: Tuple): seq<int>
    requires Cursors(lists, heads) && |lists| > 0
    decreases Left(lists, heads, |lists|)
  {
    if OutOfDoc(lists, heads) then []
    else if IsWindow(lists, n, heads) then
      LeftAfterBump(lists, heads, |lists|);
      [High(lists, heads)] + Matches(lists, n, Bump(heads))
    else
      var i := LowestArg(lists, heads);
      LeftAfterSkip(lists, heads, i, |lists|);
      Matches(lists, n, heads[i := heads[i] + 1])
  }

  lemma {:induction false} MatchesEndWindows(lists: Lists, n: int, heads: Tuple)
    requires Cursors(lists, heads) && |lists| > 0
    ensures var windows, r := Greedy(lists, n, heads), Matches(lists, n, heads);
            && |r| == |windows|
            && forall a :: 0 <= a < |r| ==> Within(lists, windows[a]) && r[a] == High(lists, windows[a])
    decreases Left(lists, heads, |lists|)
  {
    hide IsWindow, LowestArg, High, Low, Left, Cursors, Within, OutOfDoc;
    if !OutOfDoc(lists, heads) {
      InDoc(lists, heads);
      if IsWindow(lists, n, heads) {
        Bumped(lists, heads);
        MatchesEndWindows(lists, n, Bump(heads));
      } else {
        var i := LowestArg(lists, heads);
        Skipped(lists, heads, i);
        MatchesEndWindows(lists, n, heads[i := heads[i] + 1]);
      }
    }
  }

  // ----- Soundness

  lemma PrependHeads(lists: Lists, n: int, heads: Tuple, rest: seq<Tuple>)
    requires |lists| > 0 && IsWindow(lists, n, heads)
    requires WindowFamily(lists, n, Bump(heads), rest) && Ascending(rest)
    ensures WindowFamily(lists, n, heads, [heads] + rest) && Ascending([heads] + rest)
  {
    forall a | 0 <= a < |rest| ensures Before(heads, rest[a]) && From(heads, rest[a]) {
      assert From(Bump(heads), rest[a]);
    }
    forall a | 0 <= a < |rest| ensures Apart(heads, rest[a]) {
      assert Before(heads, rest[a]);
    }
  }

  lemma {:induction false} GreedySound(lists: Lists, n: int, heads: Tuple)
    requires Cursors(lists, heads) && |lists| > 0
    ensures WindowFamily(lists, n, heads, Greedy(lists, n, heads))
    ensures Ascending(Greedy(lists, n, heads))
    decreases Left(lists, heads, |lists|)
  {
    hide WindowFamily, IsWindow, LowestArg, High, Low, From, Within, Cursors, OutOfDoc, Left, Ascending;
    if OutOfDoc(lists, heads) {
      EmptyFamily(lists, n, heads);
    } else {
      InDoc(lists, heads);
      if IsWindow(lists, n, heads) {
        Bumped(lists, heads);
        GreedySound(lists, n, Bump(heads));
        PrependHeads(lists, n, heads, Greedy(lists, n, Bump(heads)));
      } else {
        var i := LowestArg(lists, heads);
        Skipped(lists, heads, i);
        GreedySound(lists, n, heads[i := heads[i] + 1]);
        FromEarlier(lists, n, heads, i, Greedy(lists, n, heads));
      }
    }
  }

  lemma EmptyFamily(lists: Lists, n: int, heads: Tuple)
    requires |lists| > 0
    ensures WindowFamily(lists, n, heads, []) && Ascending([])
  {
  }

  lemma FromEarlier(lists: Lists, n: int, heads: Tuple, i: nat, family: seq<Tuple>)
    requires |lists| > 0 && i < |heads| && WindowFamily(lists, n, heads[i := heads[i] + 1], family)
    ensures WindowFamily(lists, n, heads, family)
  {
    forall a | 0 <= a < |family| ensures From(heads, family[a]) {
      assert From(heads[i := heads[i] + 1], family[a]);
    }
  }

  lemma FamilyWithin(lists: Lists, n: int, heads: Tuple, family: seq<Tuple>, a: nat)
    requires |lists| > 0 && WindowFamily(lists, n, heads, family) && a < |family|
    ensures IsWindow(lists, n, family[a]) && Within(lists, family[a]) && From(heads, family[a])
  {
  }

  // ----- Maximality

  /** Moving past the smallest head loses no window: the span could only grow. */
  lemma SkipIsSafe(lists: Lists, n: int, heads: Tuple, c: Tuple)
    requires Ordered(lists) && Within(lists, heads) && |lists| > 0
    requires !IsWindow(lists, n, heads) && IsWindow(lists, n, c) && From(heads, c)
    ensures From(heads[LowestArg(lists, heads) := heads[LowestArg(lists, heads)] + 1], c)
  {
    hide High, Low;
    var i := LowestArg(lists, heads);
    var top, bottom := Attained(lists, heads);
    Bounds(lists, c, top);
    Bounds(lists, c, i);
    assert At(lists, heads, i) == Low(lists, heads) by {
      Bounds(lists, heads, i);
      assert Current(lists, heads)[i] <= Current(lists, heads)[bottom];
    }
    assert At(lists, heads, top) <= At(lists, c, top);
    assert At(lists, heads, i) < At(lists, c, i);
  }

  /** The member of the family that ends first. */
  ghost function EndsFirst(lists: Lists, family: seq<Tuple>): (a: nat)
    requires |lists| > 0 && family != [] && forall b :: 0 <= b < |family| ==> Within(lists, family[b])
    ensures a < |family| && forall b :: 0 <= b < |family| ==> High(lists, family[a]) <= High(lists, family[b])
  {
    if |family| == 1 then 0
    else
      var rest := EndsFirst(lists, family[1..]);
      assert forall b :: 1 <= b < |family| ==> family[b] == family[1..][b - 1];
      if High(lists, family[0]) <= High(lists, family[rest + 1]) then 0 else rest + 1
  }

  /** The `j`-th member that stays when member `a` is dropped. */
  function Kept(a: nat, j: nat): nat {
    if j < a then j else j + 1
  }

  /** A member of the family, using the dropped member's entry wherever it used a head. */
  ghost function Replaced(heads: Tuple, dropped: Tuple, c: Tuple): (r: Tuple)
    requires |heads| == |dropped| == |c|
    ensures |r| == |c|
    ensures forall i :: 0 <= i < |c| ==> r[i] == if c[i] == heads[i] then dropped[i] else c[i]
  {
    seq(|c|, i requires 0 <= i < |c| => if c[i] == heads[i] then dropped[i] else c[i])
  }

  /** The dropped window ends first, so what it lends lies inside the borrowing window. */
  lemma ReplacedIsWindow(lists: Lists, n: int, heads: Tuple, dropped: Tuple, c: Tuple)
    requires Ordered(lists) && Cursors(lists, heads) && |lists| > 0
    requires IsWindow(lists, n, dropped) && From(heads, dropped)
    requires IsWindow(lists, n, c) && From(heads, c) && Apart(dropped, c)
    requires High(lists, dropped) <= High(lists, c)
    ensures IsWindow(lists, n, Replaced(heads, dropped, c)) && From(Bump(heads), Replaced(heads, dropped, c))
  {
    hide High, Low;
    var r := Replaced(heads, dropped, c);
    assert Within(lists, r);
    var top, bottom := Attained(lists, r);
    forall i | 0 <= i < |lists| ensures Low(lists, c) <= At(lists, r, i) <= High(lists, c) {
      Bounds(lists, dropped, i);
      Bounds(lists, c, i);
    }
  }

  ghost function Rebuilt(heads: Tuple, family: seq<Tuple>, a: nat): (r: seq<Tuple>)
    requires a < |family| && forall b :: 0 <= b < |family| ==> |family[b]| == |heads|
    ensures |r| == |family| - 1
    ensures forall j :: 0 <= j < |r| ==> r[j] == Replaced(heads, family[a], family[Kept(a, j)])
  {
    seq(|family| - 1, j requires 0 <= j < |family| - 1 => Replaced(heads, family[a], family[Kept(a, j)]))
  }

  lemma RebuiltApart(heads: Tuple, family: seq<Tuple>, a: nat, j: nat, k: nat)
    requires a < |family| && forall b :: 0 <= b < |family| ==> |family[b]| == |heads|
    requires Disjoint(family) && j < k < |family| - 1
    ensures Apart(Rebuilt(heads, family, a)[j], Rebuilt(heads, family, a)[k])
  {
    var b, c := Kept(a, j), Kept(a, k);
    assert if a < b then Apart(family[a], family[b]) else Apart(family[b], family[a]);
    assert if a < c then Apart(family[a], family[c]) else Apart(family[c], family[a]);
    assert Apart(family[b], family[c]);
  }

  /** From any family, one with a single window less that leaves every head unused. */
  lemma Exchange(lists: Lists, n: int, heads: Tuple, family: seq<Tuple>) returns (r: seq<Tuple>)
    requires Ordered(lists) && Cursors(lists, heads) && |lists| > 0
    requires WindowFamily(lists, n, heads, family) && family != []
    ensures |r| == |family| - 1 && WindowFamily(lists, n, Bump(heads), r)
  {
    hide WindowFamily, IsWindow, High, Low, Replaced, Cursors, Within, From, Ordered, Bump, Disjoint, Apart, EndsFirst;
    forall b | 0 <= b < |family|
      ensures IsWindow(lists, n, family[b]) && Within(lists, family[b]) && |family[b]| == |lists| == |heads|
    {
      FamilyWithin(lists, n, heads, family, b);
      Widths(lists, heads, family[b]);
    }
    FamilyIsDisjoint(lists, n, heads, family);
    var a := EndsFirst(lists, family);
    r := Rebuilt(heads, family, a);
    forall j | 0 <= j < |r| ensures IsWindow(lists, n, r[j]) && From(Bump(heads), r[j]) {
      ExchangeOne(lists, n, heads, family, a, Kept(a, j));
    }
    forall j, k | 0 <= j < k < |r| ensures Apart(r[j], r[k]) {
      RebuiltApart(heads, family, a, j, k);
    }
    IsFamily(lists, n, Bump(heads), r);
  }

  lemma ExchangeOne(lists: Lists, n: int, heads: Tuple, family: seq<Tuple>, a: nat, b: nat)
    requires Ordered(lists) && Cursors(lists, heads) && |lists| > 0 && WindowFamily(lists, n, heads, family)
    requires a < |family| && b < |family| && a != b && |family[a]| == |family[b]| == |heads|
    requires Within(lists, family[a]) && Within(lists, family[b]) && High(lists, family[a]) <= High(lists, family[b])
    ensures var r := Replaced(heads, family[a], family[b]); IsWindow(lists, n, r) && From(Bump(heads), r)
  {
    hide IsWindow, High, Low, Replaced, Cursors, From, Ordered, Bump;
    assert if a < b then Apart(family[a], family[b]) else Apart(family[b], family[a]);
    ReplacedIsWindow(lists, n, heads, family[a], family[b]);
  }

  lemma FamilyIsDisjoint(lists: Lists, n: int, heads: Tuple, family: seq<Tuple>)
    requires |lists| > 0 && WindowFamily(lists, n, heads, family)
    ensures Disjoint(family)
  {
  }

  lemma IsFamily(lists: Lists, n: int, heads: Tuple, family: seq<Tuple>)
    requires |lists| > 0 && forall j :: 0 <= j < |family| ==> IsWindow(lists, n, family[j]) && From(heads, family[j])
    requires forall a, b :: 0 <= a < b < |family| ==> Apart(family[a], family[b])
    ensures WindowFamily(lists, n, heads, family)
  {
  }

  lemma Widths(lists: Lists, heads: Tuple, c: Tuple)
    requires Cursors(lists, heads) && Within(lists, c)
    ensures |c| == |lists| == |heads|
  {
  }

  lemma FamilySurvivesSkip(lists: Lists, n: int, heads: Tuple, family: seq<Tuple>)
    requires Ordered(lists) && Within(lists, heads) && |lists| > 0
    requires !IsWindow(lists, n, heads) && WindowFamily(lists, n, heads, family)
    ensures var i := LowestArg(lists, heads);
            WindowFamily(lists, n, heads[i := heads[i] + 1], family)
  {
    var i := LowestArg(lists, heads);
    forall a | 0 <= a < |family| ensures From(heads[i := heads[i] + 1], family[a]) {
      SkipIsSafe(lists, n, heads, family[a]);
    }
  }

  /** No family of windows that are disjoint in every argument is larger than the sweep's. */
  lemma {:induction false} GreedyIsMaximum(lists: Lists, n: int, heads: Tuple, family: seq<Tuple>)
    requires Ordered(lists) && Cursors(lists, heads) && |lists| > 0
    requires WindowFamily(lists, n, heads, family)
    ensures |family| <= |Greedy(lists, n, heads)|
    decreases Left(lists, heads, |lists|)
  {
    hide WindowFamily, IsWindow, LowestArg, High, Low, Ordered, From, Within, Cursors, OutOfDoc, Left;
    if OutOfDoc(lists, heads) {
      if family != [] {
        FamilyWithin(lists, n, heads, family, 0);
        NothingOutOfDoc(lists, heads, family[0]);
      }
    } else if family != [] {
      InDoc(lists, heads);
      if IsWindow(lists, n, heads) {
        Bumped(lists, heads);
        var rest := Exchange(lists, n, heads, family);
        GreedyIsMaximum(lists, n, Bump(heads), rest);
      } else {
        var i := LowestArg(lists, heads);
        Skipped(lists, heads, i);
        FamilySurvivesSkip(lists, n, heads, family);
        GreedyIsMaximum(lists, n, heads[i := heads[i] + 1], family);
      }
    }
  }

  /** What WINDOW/n promises of one document. */
  lemma WindowIsSoundAndMaximum(lists: Lists, n: int, matches: seq<int>)
    requires Ordered(lists) && |lists| > 0 && matches == Matches(lists, n, Start(lists))
    ensures StrictlyIncreasing(matches) && NonNegative(matches)
    ensures exists windows ::
              && WindowFamily(lists, n, Start(lists), windows) && |windows| == |matches|
              && forall a :: 0 <= a < |windows| ==> matches[a] == High(lists, windows[a])
    ensures forall family :: WindowFamily(lists, n, Start(lists), family) ==> |family| <= |matches|
  {
    var windows := Greedy(lists, n, Start(lists));
    GreedySound(lists, n, Start(lists));
    MatchesEndWindows(lists, n, Start(lists));
    forall a, b | 0 <= a < b < |matches| ensures matches[a] < matches[b] {
      assert Before(windows[a], windows[b]);
      var top, _ := Attained(lists, windows[a]);
      Bounds(lists, windows[b], top);
      assert At(lists, windows[a], top) < At(lists, windows[b], top);
    }
    forall a | 0 <= a < |matches| ensures 0 <= matches[a] {
      Bounds(lists, windows[a], 0);
    }
    forall family | WindowFamily(lists, n, Start(lists), family) ensures |family| <= |matches| {
      GreedyIsMaximum(lists, n, Start(lists), family);
    }
    assert forall a :: 0 <= a < |windows| ==> matches[a] == High(lists, windows[a]);
  }

  // ----- The sweep as the operator runs it, on one cursor per argument

  method ValidIndices(lists: Lists, indices: array<nat>) returns (valid: bool)
    requires Cursors(lists, Heads(indices))
    ensures valid == !OutOfDoc(lists, Heads(indices))
  {
    for i := 0 to indices.Length
      invariant forall k :: 0 <= k < i ==> indices[k] < |lists[k]|
    {
      if indices[i] >= |lists[i]| {
        return false;
      }
    }
    return true;
  }

  method CurrentPositions(lists: Lists, indices: array<nat>) returns (current: seq<int>)
    requires Within(lists, Heads(indices))
    ensures |current| == |lists| == indices.Length && current == Current(lists, Heads(indices))
  {
    current := [];
    for i := 0 to |lists|
      invariant |current| == i && forall k :: 0 <= k < i ==> current[k] == lists[k][indices[k]]
    {
      current := current + [lists[i][indices[i]]];
    }
    assert forall k :: 0 <= k < |lists| ==> At(lists, Heads(indices), k) == lists[k][indices[k]];
  }

  /** The scan for the first smallest value, which starts above every value. */
  method MinIndex(current: seq<int>) returns (at: nat)
    requires current != []
    ensures at == FirstMin(current)
  {
    at := 0;
    var minVal := current[0];
    for i := 1 to |current|
      invariant at < i && minVal == current[at]
      invariant forall k :: 0 <= k < i ==> current[at] <= current[k]
      invariant forall k :: 0 <= k < at ==> current[at] < current[k]
    {
      if current[i] < minVal {
        minVal := current[i];
        at := i;
      }
    }
  }

  /** One pass of the sweep, seen from the positions it still has to report. */
  lemma NextMatch(lists: Lists, n: int, heads: Tuple)
    requires Within(lists, heads) && |lists| > 0
    ensures var current := Current(lists, heads);
            if Max(current) - Min(current) < n then
              && Cursors(lists, Bump(heads))
              && Matches(lists, n, heads) == [Max(current)] + Matches(lists, n, Bump(heads))
              && Left(lists, Bump(heads), |lists|) < Left(lists, heads, |lists|)
            else
              var next := heads[FirstMin(current) := heads[FirstMin(current)] + 1];
              && Cursors(lists, next)
              && Matches(lists, n, heads) == Matches(lists, n, next)
              && Left(lists, next, |lists|) < Left(lists, heads, |lists|)
  {
    hide Left, Cursors, Within, OutOfDoc, At, Current, Bump;
    Bumped(lists, heads);
    Skipped(lists, heads, FirstMin(Current(lists, heads)));
  }

  /** One pass of the sweep: a window advances every cursor, anything else only the smallest. */
  method SweepOnce(lists: Lists, n: int, indices: array<nat>) returns (found: seq<int>)
    requires |lists| > 0 && Within(lists, Heads(indices))
    modifies indices
    ensures Cursors(lists, Heads(indices))
    ensures Left(lists, Heads(indices), |lists|) < Left(lists, old(Heads(indices)), |lists|)
    ensures Matches(lists, n, old(Heads(indices))) == found + Matches(lists, n, Heads(indices))
  {
    hide Matches, Left, IsWindow, From, High, Low, Cursors, At, Current, Within, OutOfDoc;
    ghost var heads := Heads(indices);
    NextMatch(lists, n, heads);
    var current := CurrentPositions(lists, indices);
    var minPos, maxPos := Min(current), Max(current);
    if maxPos - minPos < n {
      found := [maxPos];
      AdvanceAll(lists, indices);
    } else {
      found := [];
      var i := MinIndex(current);
      indices[i] := indices[i] + 1;
      assert Heads(indices) == heads[i := heads[i] + 1];
    }
  }

  /** All match positions in one document, in order. */
  method WithinDoc(lists: Lists, n: int) returns (matches: seq<int>)
    requires |lists| > 0
    ensures matches == Matches(lists, n, Start(lists))
  {
    hide IsWindow, LowestArg, High, Low;
    matches := [];
    var indices := new nat[|lists|](i => 0);
    assert Heads(indices) == Start(lists);
    var valid := ValidIndices(lists, indices);
    while valid
      invariant fresh(indices) && Cursors(lists, Heads(indices))
      invariant valid == !OutOfDoc(lists, Heads(indices))
      invariant Matches(lists, n, Start(lists)) == matches + Matches(lists, n, Heads(indices))
      decreases Left(lists, Heads(indices), |lists|)
    {
      var found := SweepOnce(lists, n, indices);
      matches := matches + found;
      valid := ValidIndices(lists, indices);
    }
  }
}
