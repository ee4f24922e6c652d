/**
 NEAR/n inside one document: the ordered greedy sweep, the family of matches it finds, and the
 proof that no family of disjoint matches is larger.
 */
module Near {
  import opened Sequences
  import opened Sweeps

  /** One position per argument, each after its predecessor by at most `n`. */
  predicate IsChain(lists: Lists, n: int, c: Tuple) {
    && Within(lists, c)
    && forall i :: 1 <= i < |lists| ==> 0 < At(lists, c, i) - At(lists, c, i - 1) <= n
  }

  ghost predicate ChainFamily(lists: Lists, n: int, heads: Tuple, family: seq<Tuple>) {
    && (forall a :: 0 <= a < |family| ==> IsChain(lists, n, family[a]) && From(heads, family[a]))
    && Disjoint(family)
  }

  datatype Probe = Match | Skip(arg: nat)

  /** One pass over the cursors, from argument `i` on: a match, or the one cursor to move. */
  function FindFrom(lists: Lists, n: int, heads: Tuple, i: nat): (p: Probe)
    requires Within(lists, heads) && 1 <= i <= |lists|
    ensures p.Match? ==> forall k :: i <= k < |lists| ==> 0 < At(lists, heads, k) - At(lists, heads, k - 1) <= n
    ensures p.Skip? ==> p.arg < |lists|
    ensures p.Skip? ==>
              || (p.arg > 0 && At(lists, heads, p.arg) <= At(lists, heads, p.arg - 1))
              || (p.arg + 1 < |lists| && At(lists, heads, p.arg + 1) - At(lists, heads, p.arg) > n)
    decreases |lists| - i
  {
    if i == |lists| then Match
    else if At(lists, heads, i) <= At(lists, heads, i - 1) then Skip(i)
    else if At(lists, heads, i) - At(lists, heads, i - 1) > n then Skip(i - 1)
    else FindFrom(lists, n, heads, i + 1)
  }

  /** The chains the sweep takes from the given cursors on, in the order it finds them. */
  function Greedy(lists: Lists, n: int, heads: Tuple): (chains: seq<Tuple>)
    requires Cursors(lists, heads) && |lists| > 0
    decreases Left(lists, heads, |lists|)
  {
    if OutOfDoc(lists, heads) then []
    else
      match FindFrom(lists, n, heads, 1)
      case Match =>
        LeftAfterBump(lists, heads, |lists|);
        [heads] + Greedy(lists, n, Bump(heads))
      case Skip(i) =>
        LeftAfterSkip(lists, heads, i, |lists|);
        Greedy(lists, n, heads[i := heads[i] + 1])
  }

  /** What NEAR/n reports from the given cursors on: the position of each chain's last term. */
  function Matches(lists: Lists, n: int, heads: Tuple): (r: seq<int>)
    requires Cursors(lists, heads) && |lists| > 0
    decreases Left(lists, heads, |lists|)
  {
    if OutOfDoc(lists, heads) then []
    else
      match FindFrom(lists, n, heads, 1)
      case Match =>
        LeftAfterBump(lists, heads, |lists|);
        [At(lists, heads, |lists| - 1)] + Matches(lists, n, Bump(heads))
      case Skip(i) =>
        LeftAfterSkip(lists, heads, i, |lists|);
        Matches(lists, n, heads[i := heads[i] + 1])
  }

  lemma {:induction false} MatchesEndChains(lists: Lists, n: int, heads: Tuple)
    requires Cursors(lists, heads) && |lists| > 0
    ensures var chains, r := Greedy(lists, n, heads), Matches(lists, n, heads);
            && |r| == |chains|
            && forall a :: 0 <= a < |r| ==> Within(lists, chains[a]) && r[a] == At(lists, chains[a], |lists| - 1)
    decreases Left(lists, heads, |lists|)
  {
    hide Left, Cursors, Within, OutOfDoc, FindFrom, At;
    if !OutOfDoc(lists, heads) {
      InDoc(lists, heads);
      match FindFrom(lists, n, heads, 1) {
        case Match =>
          Bumped(lists, heads);
          MatchesEndChains(lists, n, Bump(heads));
        case Skip(i) =>
          Skipped(lists, heads, i);
          MatchesEndChains(lists, n, heads[i := heads[i] + 1]);
      }
    }
  }

  // ----- Soundness

  lemma PrependHeads(lists: Lists, n: int, heads: Tuple, rest: seq<Tuple>)
    requires IsChain(lists, n, heads) && ChainFamily(lists, n, Bump(heads), rest) && Ascending(rest)
    ensures ChainFamily(lists, n, heads, [heads] + rest) && Ascending([heads] + rest)
  {
    forall a | 0 <= a < |rest| ensures Before(heads, rest[a]) && From(heads, rest[a]) {
      assert From(Bump(heads), rest[a]);
    }
    forall a | 0 <= a < |rest| ensures Apart(heads, rest[a]) {
      assert Before(heads, rest[a]);
    }
  }

  /** Every reported tuple is a chain, and each lies strictly after its predecessor at every argument. */
  lemma {:induction false} GreedySound(lists: Lists, n: int, heads: Tuple)
    requires Cursors(lists, heads) && |lists| > 0
    ensures ChainFamily(lists, n, heads, Greedy(lists, n, heads))
    ensures Ascending(Greedy(lists, n, heads))
    decreases Left(lists, heads, |lists|)
  {
    hide ChainFamily, IsChain, FindFrom, At, From, Within, Cursors, OutOfDoc, Left, Ascending;
    if OutOfDoc(lists, heads) {
      EmptyFamily(lists, n, heads);
    } else {
      InDoc(lists, heads);
      match FindFrom(lists, n, heads, 1) {
        case Match =>
          Bumped(lists, heads);
          GreedySound(lists, n, Bump(heads));
          MatchIsChain(lists, n, heads);
          PrependHeads(lists, n, heads, Greedy(lists, n, Bump(heads)));
        case Skip(i) =>
          Skipped(lists, heads, i);
          GreedySound(lists, n, heads[i := heads[i] + 1]);
          FromEarlier(lists, n, heads, i, Greedy(lists, n, heads));
      }
    }
  }

  lemma EmptyFamily(lists: Lists, n: int, heads: Tuple)
    ensures ChainFamily(lists, n, heads, []) && Ascending([])
  {
  }

  lemma MatchIsChain(lists: Lists, n: int, heads: Tuple)
    requires Within(lists, heads) && |lists| > 0 && FindFrom(lists, n, heads, 1).Match?
    ensures IsChain(lists, n, heads)
  {
  }

  lemma FromEarlier(lists: Lists, n: int, heads: Tuple, i: nat, family: seq<Tuple>)
    requires i < |heads| && ChainFamily(lists, n, heads[i := heads[i] + 1], family)
    ensures ChainFamily(lists, n, heads, family)
  {
    forall a | 0 <= a < |family| ensures From(heads, family[a]) {
      assert From(heads[i := heads[i] + 1], family[a]);
    }
  }

  // ----- Maximality: the exchange argument

  /** The member of the family that uses the smallest entry of argument `i`. */
  ghost function Lowest(family: seq<Tuple>, width: nat, i: nat): (a: nat)
    requires family != [] && i < width && forall b :: 0 <= b < |family| ==> |family[b]| == width
    ensures a < |family| && forall b :: 0 <= b < |family| ==> family[a][i] <= family[b][i]
  {
    if |family| == 1 then 0
    else
      var rest := Lowest(family[1..], width, i);
      assert forall b :: 1 <= b < |family| ==> family[b] == family[1..][b - 1];
      if family[0][i] <= family[rest + 1][i] then 0 else rest + 1
  }

  /**
   Which member supplies entry `i` of the `j`-th rebuilt chain.  The rebuilt chains use every entry
   except the smallest of each argument: where a chain's next entry is that smallest one, it
   continues with the entry left free by the member it drops.
   */
  ghost function Supplier(family: seq<Tuple>, width: nat, j: nat, i: nat): (a: nat)
    requires family != [] && i < width && forall b :: 0 <= b < |family| ==> |family[b]| == width
    requires j + 1 < |family|
    ensures a < |family| && a != Lowest(family, width, i)
  {
    var low := Lowest(family, width, i);
    if i == 0 then (if j < low then j else j + 1)
    else
      var before := Supplier(family, width, j, i - 1);
      if before == low then Lowest(family, width, i - 1) else before
  }

  lemma {:induction false} SuppliersDiffer(family: seq<Tuple>, width: nat, j: nat, k: nat, i: nat)
    requires family != [] && i < width && forall b :: 0 <= b < |family| ==> |family[b]| == width
    requires j + 1 < |family| && k + 1 < |family| && j != k
    ensures Supplier(family, width, j, i) != Supplier(family, width, k, i)
  {
    if i > 0 {
      SuppliersDiffer(family, width, j, k, i - 1);
    }
  }

  ghost function Rebuilt(family: seq<Tuple>, width: nat): (r: seq<Tuple>)
    requires family != [] && forall b :: 0 <= b < |family| ==> |family[b]| == width
    ensures |r| == |family| - 1
    ensures forall j, i :: 0 <= j < |r| && 0 <= i < width ==>
              |r[j]| == width && r[j][i] == family[Supplier(family, width, j, i)][i]
  {
    seq(|family| - 1, j requires 0 <= j < |family| - 1 =>
      seq(width, i requires 0 <= i < width => family[Supplier(family, width, j, i)][i]))
  }

  /** A rebuilt chain keeps its gaps in range also where it changes supplier. */
  lemma RebuiltGap(lists: Lists, n: int, heads: Tuple, family: seq<Tuple>, j: nat, i: nat)
    requires Ordered(lists) && Cursors(lists, heads) && ChainFamily(lists, n, heads, family)
    requires j + 1 < |family| && 1 <= i < |lists|
    ensures var from, to := Supplier(family, |lists|, j, i - 1), Supplier(family, |lists|, j, i);
            0 < At(lists, family[to], i) - At(lists, family[from], i - 1) <= n
  {
    var w := |lists|;
    var from, to := Supplier(family, w, j, i - 1), Supplier(family, w, j, i);
    assert IsChain(lists, n, family[from]) && IsChain(lists, n, family[to]);
    if from != to {
      assert from == Lowest(family, w, i) && to == Lowest(family, w, i - 1);
      assert if from < to then Apart(family[from], family[to]) else Apart(family[to], family[from]);
      assert At(lists, family[to], i - 1) < At(lists, family[from], i - 1);
      assert At(lists, family[from], i) < At(lists, family[to], i);
    }
  }

  lemma RebuiltIsChain(lists: Lists, n: int, heads: Tuple, family: seq<Tuple>, j: nat)
    requires Ordered(lists) && Cursors(lists, heads) && ChainFamily(lists, n, heads, family)
    requires j + 1 < |family|
    ensures IsChain(lists, n, Rebuilt(family, |lists|)[j])
  {
    hide Supplier, Disjoint, Ordered, At;
    var w := |lists|;
    var c := Rebuilt(family, w)[j];
    forall i | 0 <= i < w ensures c[i] < |lists[i]| {
      FamilyWithin(lists, n, heads, family, Supplier(family, w, j, i));
    }
    forall i | 1 <= i < w ensures 0 < At(lists, c, i) - At(lists, c, i - 1) <= n {
      RebuiltGap(lists, n, heads, family, j, i);
      SameAt(lists, c, family[Supplier(family, w, j, i)], i);
      SameAt(lists, c, family[Supplier(family, w, j, i - 1)], i - 1);
    }
  }

  lemma FamilyWithin(lists: Lists, n: int, heads: Tuple, family: seq<Tuple>, a: nat)
    requires ChainFamily(lists, n, heads, family) && a < |family|
    ensures Within(lists, family[a]) && From(heads, family[a])
  {
  }

  lemma SameAt(lists: Lists, c: Tuple, d: Tuple, i: nat)
    requires Within(lists, c) && Within(lists, d) && i < |lists| && c[i] == d[i]
    ensures At(lists, c, i) == At(lists, d, i)
  {
  }

  lemma RebuiltIsLater(lists: Lists, n: int, heads: Tuple, family: seq<Tuple>, j: nat)
    requires Ordered(lists) && Cursors(lists, heads) && ChainFamily(lists, n, heads, family)
    requires j + 1 < |family|
    ensures From(Bump(heads), Rebuilt(family, |lists|)[j])
  {
    var w := |lists|;
    forall i | 0 <= i < w ensures heads[i] + 1 <= Rebuilt(family, w)[j][i] {
      var s, low := Supplier(family, w, j, i), Lowest(family, w, i);
      assert if s < low then Apart(family[s], family[low]) else Apart(family[low], family[s]);
      assert From(heads, family[low]);
    }
  }

  lemma RebuiltApart(lists: Lists, family: seq<Tuple>, j: nat, k: nat)
    requires Disjoint(family) && j + 1 < |family| && k + 1 < |family| && j != k
    requires forall b :: 0 <= b < |family| ==> |family[b]| == |lists|
    ensures Apart(Rebuilt(family, |lists|)[j], Rebuilt(family, |lists|)[k])
  {
    var w := |lists|;
    forall i | 0 <= i < w ensures Rebuilt(family, w)[j][i] != Rebuilt(family, w)[k][i] {
      SuppliersDiffer(family, w, j, k, i);
      var x, y := Supplier(family, w, j, i), Supplier(family, w, k, i);
      assert if x < y then Apart(family[x], family[y]) else Apart(family[y], family[x]);
    }
  }

  /** From any family, one with a single chain less that leaves the smallest entries unused. */
  lemma Exchange(lists: Lists, n: int, heads: Tuple, family: seq<Tuple>) returns (rest: seq<Tuple>)
    requires Ordered(lists) && Cursors(lists, heads) && ChainFamily(lists, n, heads, family) && family != []
    ensures |rest| == |family| - 1 && ChainFamily(lists, n, Bump(heads), rest)
  {
    FamilyWidth(lists, n, heads, family);
    rest := Rebuilt(family, |lists|);
    hide ChainFamily, IsChain, Ordered, Cursors, From, Apart, Rebuilt, Disjoint, Within, Bump;
    forall j | 0 <= j < |rest| ensures IsChain(lists, n, rest[j]) && From(Bump(heads), rest[j]) {
      RebuiltIsChain(lists, n, heads, family, j);
      RebuiltIsLater(lists, n, heads, family, j);
    }
    forall a, b | 0 <= a < b < |rest| ensures Apart(rest[a], rest[b]) {
      RebuiltApart(lists, family, a, b);
    }
    IsFamily(lists, n, Bump(heads), rest);
  }

  lemma FamilyWidth(lists: Lists, n: int, heads: Tuple, family: seq<Tuple>)
    requires ChainFamily(lists, n, heads, family)
    ensures Disjoint(family) && forall b :: 0 <= b < |family| ==> |family[b]| == |lists|
  {
  }

  lemma IsFamily(lists: Lists, n: int, heads: Tuple, family: seq<Tuple>)
    requires forall j :: 0 <= j < |family| ==> IsChain(lists, n, family[j]) && From(heads, family[j])
    requires forall a, b :: 0 <= a < b < |family| ==> Apart(family[a], family[b])
    ensures ChainFamily(lists, n, heads, family)
  {
  }

  /** The entry a probe discards is in no chain that starts at the cursors. */
  lemma SkipIsSafe(lists: Lists, n: int, heads: Tuple, c: Tuple)
    requires Ordered(lists) && Within(lists, heads) && |lists| > 0
    requires FindFrom(lists, n, heads, 1).Skip? && IsChain(lists, n, c) && From(heads, c)
    ensures var i := FindFrom(lists, n, heads, 1).arg;
            From(heads[i := heads[i] + 1], c)
  {
    hide FindFrom, Ordered;
    var i := FindFrom(lists, n, heads, 1).arg;
    NotBefore(lists, heads, c, i);
    if i > 0 && At(lists, heads, i) <= At(lists, heads, i - 1) {
      NotBefore(lists, heads, c, i - 1);
    } else {
      NotBefore(lists, heads, c, i + 1);
    }
    assert At(lists, heads, i) < At(lists, c, i);
  }

  lemma NotBefore(lists: Lists, heads: Tuple, c: Tuple, i: nat)
    requires Ordered(lists) && Within(lists, heads) && Within(lists, c) && From(heads, c) && i < |lists|
    ensures At(lists, heads, i) <= At(lists, c, i)
  {
    assert heads[i] <= c[i];
  }

  lemma FamilySurvivesSkip(lists: Lists, n: int, heads: Tuple, family: seq<Tuple>)
    requires Ordered(lists) && Within(lists, heads) && |lists| > 0
    requires FindFrom(lists, n, heads, 1).Skip? && ChainFamily(lists, n, heads, family)
    ensures var i := FindFrom(lists, n, heads, 1).arg;
            ChainFamily(lists, n, heads[i := heads[i] + 1], family)
  {
    var i := FindFrom(lists, n, heads, 1).arg;
    forall a | 0 <= a < |family| ensures From(heads[i := heads[i] + 1], family[a]) {
      SkipIsSafe(lists, n, heads, family[a]);
    }
  }

  /** No family of pairwise disjoint chains, crossing ones included, is larger than the sweep's. */
  lemma {:induction false} GreedyIsMaximum(lists: Lists, n: int, heads: Tuple, family: seq<Tuple>)
    requires Ordered(lists) && Cursors(lists, heads) && |lists| > 0
    requires ChainFamily(lists, n, heads, family)
    ensures |family| <= |Greedy(lists, n, heads)|
    decreases Left(lists, heads, |lists|)
  {
    hide ChainFamily, IsChain, Ordered, FindFrom, At, From, Within, Cursors, OutOfDoc, Left, Rebuilt;
    if OutOfDoc(lists, heads) {
      if family != [] {
        FamilyWithin(lists, n, heads, family, 0);
        NothingOutOfDoc(lists, heads, family[0]);
      }
    } else if family != [] {
      InDoc(lists, heads);
      match FindFrom(lists, n, heads, 1) {
        case Match =>
          Bumped(lists, heads);
          var rest := Exchange(lists, n, heads, family);
          GreedyIsMaximum(lists, n, Bump(heads), rest);
        case Skip(i) =>
          Skipped(lists, heads, i);
          FamilySurvivesSkip(lists, n, heads, family);
          GreedyIsMaximum(lists, n, heads[i := heads[i] + 1], family);
      }
    }
  }

  // ----- The sweep as the operator runs it, on one cursor per argument

  method ScanOutOfDoc(lists: Lists, indices: array<nat>) returns (out: bool)
    requires Cursors(lists, Heads(indices))
    ensures out == OutOfDoc(lists, Heads(indices))
  {
    for i := 0 to indices.Length
      invariant forall k :: 0 <= k < i ==> indices[k] < |lists[k]|
    {
      if indices[i] >= |lists[i]| {
        return true;
      }
    }
    return false;
  }

  method FindMatch(lists: Lists, n: int, indices: array<nat>) returns (pos: int)
    requires Ordered(lists) && |lists| > 0 && Within(lists, Heads(indices))
    modifies indices
    ensures match FindFrom(lists, n, old(Heads(indices)), 1)
            case Match =>
              && pos == At(lists, old(Heads(indices)), |lists| - 1) && pos != -1
              && Heads(indices) == old(Heads(indices))
            case Skip(i) =>
              && pos == -1
              && Heads(indices) == old(Heads(indices))[i := old(Heads(indices))[i] + 1]
  {
    hide Ordered;
    ghost var heads := Heads(indices);
    for i := 1 to |lists|
      invariant Heads(indices) == heads
      invariant FindFrom(lists, n, heads, 1) == FindFrom(lists, n, heads, i)
    {
      var curr, prev := lists[i][indices[i]], lists[i - 1][indices[i - 1]];
      assert curr == At(lists, heads, i) && prev == At(lists, heads, i - 1);
      if curr <= prev {
        indices[i] := indices[i] + 1;
        return -1;
      }
      if curr - prev > n {
        indices[i - 1] := indices[i - 1] + 1;
        return -1;
      }
    }
    var last := |lists| - 1;
    AtNonNegative(lists, heads, last);
    return lists[last][indices[last]];
  }

  lemma AtNonNegative(lists: Lists, c: Tuple, i: nat)
    requires Ordered(lists) && Within(lists, c) && i < |lists|
    ensures 0 <= At(lists, c, i)
  {
  }

  /** One pass of the sweep: at most one match, and every cursor it used up moved on. */
  method SweepOnce(lists: Lists, n: int, indices: array<nat>) returns (pos: int)
    requires Ordered(lists) && |lists| > 0 && Within(lists, Heads(indices))
    modifies indices
    ensures Cursors(lists, Heads(indices))
    ensures Left(lists, Heads(indices), |lists|) < Left(lists, old(Heads(indices)), |lists|)
    ensures Matches(lists, n, old(Heads(indices))) == Found(pos) + Matches(lists, n, Heads(indices))
  {
    ghost var heads := Heads(indices);
    NextMatch(lists, n, heads);
    pos := FindMatch(lists, n, indices);
    if pos != -1 {
      AdvanceAll(lists, indices);
    }
  }

  function Found(pos: int): seq<int> {
    if pos == -1 then [] else [pos]
  }

  /** All match positions in one document: the last positions of the greedy family, in order. */
  method WithinDoc(lists: Lists, n: int) returns (matches: seq<int>)
    requires Ordered(lists) && |lists| > 0
    ensures matches == Matches(lists, n, Start(lists))
  {
    hide Matches, Left, Ordered, Within, At;
    matches := [];
    var indices := new nat[|lists|](i => 0);
    assert Heads(indices) == Start(lists);
    var out := ScanOutOfDoc(lists, indices);
    while !out
      invariant fresh(indices) && Cursors(lists, Heads(indices))
      invariant out == OutOfDoc(lists, Heads(indices))
      invariant Matches(lists, n, Start(lists)) == matches + Matches(lists, n, Heads(indices))
      decreases Left(lists, Heads(indices), |lists|)
    {
      InDoc(lists, Heads(indices));
      var pos := SweepOnce(lists, n, indices);
      matches := matches + Found(pos);
      out := ScanOutOfDoc(lists, indices);
    }
    NothingLeft(lists, n, Heads(indices));
  }

  lemma NothingLeft(lists: Lists, n: int, heads: Tuple)
    requires Cursors(lists, heads) && |lists| > 0 && OutOfDoc(lists, heads)
    ensures Matches(lists, n, heads) == []
  {
  }

  /** One pass of the sweep, seen from the positions it still has to report. */
  lemma NextMatch(lists: Lists, n: int, heads: Tuple)
    requires Within(lists, heads) && |lists| > 0
    ensures match FindFrom(lists, n, heads, 1)
            case Match =>
              && Matches(lists, n, heads) == [At(lists, heads, |lists| - 1)] + Matches(lists, n, Bump(heads))
              && Left(lists, Bump(heads), |lists|) < Left(lists, heads, |lists|)
            case Skip(i) =>
              && Matches(lists, n, heads) == Matches(lists, n, heads[i := heads[i] + 1])
              && Left(lists, heads[i := heads[i] + 1], |lists|) < Left(lists, heads, |lists|)
  {
    hide Left, Cursors, Within, OutOfDoc, At, Bump, FindFrom;
    Bumped(lists, heads);
    if FindFrom(lists, n, heads, 1).Skip? {
      Skipped(lists, heads, FindFrom(lists, n, heads, 1).arg);
    }
  }

  /** What NEAR/n promises of one document: the matches end disjoint chains, and no disjoint family is larger. */
  lemma NearIsSoundAndMaximum(lists: Lists, n: int, matches: seq<int>)
    requires Ordered(lists) && |lists| > 0 && matches == Matches(lists, n, Start(lists))
    ensures StrictlyIncreasing(matches) && NonNegative(matches)
    ensures exists chains ::
              && ChainFamily(lists, n, Start(lists), chains) && |chains| == |matches|
              && forall a :: 0 <= a < |chains| ==> matches[a] == At(lists, chains[a], |lists| - 1)
    ensures forall family :: ChainFamily(lists, n, Start(lists), family) ==> |family| <= |matches|
  {
    var chains := Greedy(lists, n, Start(lists));
    GreedySound(lists, n, Start(lists));
    MatchesEndChains(lists, n, Start(lists));
    forall a, b | 0 <= a < b < |matches| ensures matches[a] < matches[b] {
      assert Before(chains[a], chains[b]);
    }
    forall family | ChainFamily(lists, n, Start(lists), family) ensures |family| <= |matches| {
      GreedyIsMaximum(lists, n, Start(lists), family);
    }
    assert forall a :: 0 <= a < |chains| ==> matches[a] == At(lists, chains[a], |lists| - 1);
  }
}
