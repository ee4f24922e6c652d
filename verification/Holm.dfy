/** Holm's adjustment of the p-values of several hypotheses tested together. */
module Holm {

  datatype Hypothesis = Hypothesis(name: string, p: real)

  function Min(a: real, b: real): real { if a <= b then a else b }

  function Max(a: real, b: real): real { if a >= b then a else b }

  function Times(n: nat, v: real): real { n as real * v }

  lemma TimesGrows(m: nat, n: nat, v: real)
    requires m <= n
    ensures v >= 0.0 ==> Times(m, v) <= Times(n, v)
    ensures v <= 0.0 ==> Times(n, v) <= 0.0
    ensures Times(1, v) == v
  {
    assert (n - m) as real * v == n as real * v - m as real * v;
  }

  ghost predicate Sorted(s: seq<Hypothesis>) {
    forall i, j :: 0 <= i < j < |s| ==> s[i].p <= s[j].p
  }

  function Insert(h: Hypothesis, s: seq<Hypothesis>): seq<Hypothesis> {
    if s == [] || h.p <= s[0].p then [h] + s else [s[0]] + Insert(h, s[1..])
  }

  /** Sorted by p-value; hypotheses with equal ones stay in the order they came. */
  function Sort(s: seq<Hypothesis>): seq<Hypothesis> {
    if s == [] then [] else Insert(s[0], Sort(s[1..]))
  }

  lemma {:induction false} InsertSorts(h: Hypothesis, s: seq<Hypothesis>)
    requires Sorted(s)
    ensures Sorted(Insert(h, s)) && multiset(Insert(h, s)) == multiset(s) + multiset{h}
  {
    if s != [] && h.p > s[0].p {
      var rest := Insert(h, s[1..]);
      TailSorted(s);
      InsertSorts(h, s[1..]);
      hide Sorted, Insert;
      forall g | g in rest ensures s[0].p <= g.p {
        assert g in multiset(rest);
      }
      PutBefore(s[0], rest);
    } else {
      TailSorted(s);
      PutBefore(h, s);
    }
  }

  lemma NothingSorted()
    ensures Sorted([])
  {
  }

  lemma TailSorted(s: seq<Hypothesis>)
    requires Sorted(s)
    ensures s != [] ==> s == [s[0]] + s[1..] && Sorted(s[1..]) && (forall g :: g in s ==> s[0].p <= g.p)
    ensures s != [] ==> multiset(s) == multiset{s[0]} + multiset(s[1..])
  {
    if s != [] {
      assert s == [s[0]] + s[1..];
    }
  }

  lemma PutBefore(h: Hypothesis, s: seq<Hypothesis>)
    requires Sorted(s) && forall g :: g in s ==> h.p <= g.p
    ensures Sorted([h] + s)
  {
    var r := [h] + s;
    forall i, j | 0 <= i < j < |r| ensures r[i].p <= r[j].p {
      assert r[j] == s[j - 1] && s[j - 1] in s;
    }
  }

  lemma {:induction false} SortSorts(s: seq<Hypothesis>)
    ensures Sorted(Sort(s)) && multiset(Sort(s)) == multiset(s)
  {
    hide Insert, Sorted;
    if s == [] {
      NothingSorted();
    } else {
      SortSorts(s[1..]);
      InsertSorts(s[0], Sort(s[1..]));
      assert s == [s[0]] + s[1..];
    }
  }

  // ----- The adjusted value, whatever the order

  /** How many hypotheses have a p-value of at least v. */
  function AtLeast(s: seq<Hypothesis>, v: real): nat {
    if s == [] then 0 else (if s[0].p >= v then 1 else 0) + AtLeast(s[1..], v)
  }

  /** The Bonferroni-like value of v among the hypotheses that are no more significant. */
  function Corrected(s: seq<Hypothesis>, v: real): real {
    Min(1.0, Times(AtLeast(s, v), v))
  }

  /** x is the largest corrected value of the p-values up to v, and at least 0. */
  ghost predicate IsAdjusted(s: seq<Hypothesis>, v: real, x: real) {
    && x >= 0.0
    && (forall h :: h in s && h.p <= v ==> Corrected(s, h.p) <= x)
    && (x == 0.0 || exists h :: h in s && h.p <= v && x == Corrected(s, h.p))
  }

  lemma {:induction false} AtLeastAppend(a: seq<Hypothesis>, b: seq<Hypothesis>, v: real)
    ensures AtLeast(a + b, v) == AtLeast(a, v) + AtLeast(b, v)
  {
    if a == [] {
      assert a + b == b;
    } else {
      assert (a + b)[1..] == a[1..] + b;
      AtLeastAppend(a[1..], b, v);
    }
  }

  lemma {:induction false} AtLeastIgnoresOrder(a: seq<Hypothesis>, b: seq<Hypothesis>, v: real)
    requires multiset(a) == multiset(b)
    ensures AtLeast(a, v) == AtLeast(b, v)
  {
    if a == [] {
      assert |multiset(b)| == |b|;
    } else {
      assert a[0] in multiset(b);
      var j :| 0 <= j < |b| && b[j] == a[0];
      var rest := b[..j] + b[j + 1..];
      assert a == [a[0]] + a[1..];
      WithoutOne(b, j, v);
      AtLeastIgnoresOrder(a[1..], rest, v);
    }
  }

  lemma WithoutOne(b: seq<Hypothesis>, j: nat, v: real)
    requires j < |b|
    ensures var rest := b[..j] + b[j + 1..];
            && multiset(rest) == multiset(b) - multiset{b[j]}
            && AtLeast(b, v) == AtLeast(rest, v) + (if b[j].p >= v then 1 else 0)
  {
    var tail := [b[j]] + b[j + 1..];
    assert b == b[..j] + tail && tail[1..] == b[j + 1..];
    AtLeastAppend(b[..j], b[j + 1..], v);
    AtLeastAppend(b[..j], tail, v);
  }

  lemma CorrectedIgnoresOrder(a: seq<Hypothesis>, b: seq<Hypothesis>, v: real)
    requires multiset(a) == multiset(b)
    ensures Corrected(a, v) == Corrected(b, v)
  {
    AtLeastIgnoresOrder(a, b, v);
  }

  /** The adjusted values do not depend on the order of the hypotheses, tied ones included. */
  lemma AdjustedIgnoresOrder(a: seq<Hypothesis>, b: seq<Hypothesis>, v: real, x: real)
    requires multiset(a) == multiset(b) && IsAdjusted(a, v, x)
    ensures IsAdjusted(b, v, x)
  {
    hide AtLeast, Corrected;
    forall h ensures h in a <==> h in b {
      assert h in multiset(a) <==> h in multiset(b);
    }
    forall u: real ensures Corrected(a, u) == Corrected(b, u) {
      CorrectedIgnoresOrder(a, b, u);
    }
  }

  /** Adjusted values are determined, keep the order of the p-values, and lie between the p-value and one. */
  lemma AdjustedLaws(s: seq<Hypothesis>, v: real, x: real, w: real, y: real)
    requires IsAdjusted(s, v, x) && IsAdjusted(s, w, y) && v <= w
    ensures x <= y && x <= 1.0 && (v == w ==> x == y)
    ensures v <= 1.0 && (exists i :: 0 <= i < |s| && s[i].p == v) ==> v <= x
  {
    hide AtLeast, Times;
    if v <= 1.0 && exists i :: 0 <= i < |s| && s[i].p == v {
      var i :| 0 <= i < |s| && s[i].p == v;
      CountsItself(s, i);
      TimesGrows(1, AtLeast(s, v), v);
      assert s[i] in s && Corrected(s, s[i].p) <= x;
    }
  }

  lemma {:induction false} CountsItself(s: seq<Hypothesis>, i: nat)
    requires i < |s|
    ensures AtLeast(s, s[i].p) >= 1
  {
    if i > 0 {
      CountsItself(s[1..], i - 1);
    }
  }

  // ----- The running maximum over the sorted hypotheses

  function Step(o: seq<Hypothesis>, i: nat): real
    requires i < |o|
  {
    Times(|o| - i, o[i].p)
  }

  function Running(o: seq<Hypothesis>, i: nat): real
    requires i <= |o|
  {
    if i == 0 then 0.0 else Max(Running(o, i - 1), Min(1.0, Step(o, i - 1)))
  }

  lemma {:induction false} RunningIsMaximum(o: seq<Hypothesis>, i: nat)
    requires i <= |o|
    ensures 0.0 <= Running(o, i)
    ensures forall j :: 0 <= j < i ==> Min(1.0, Step(o, j)) <= Running(o, i)
    ensures Running(o, i) == 0.0 || exists j :: 0 <= j < i && Running(o, i) == Min(1.0, Step(o, j))
  {
    if i > 0 {
      RunningIsMaximum(o, i - 1);
    }
  }

  lemma {:induction false} AllAtLeast(s: seq<Hypothesis>, v: real)
    requires forall i :: 0 <= i < |s| ==> s[i].p >= v
    ensures AtLeast(s, v) == |s|
  {
    if s != [] {
      AllAtLeast(s[1..], v);
    }
  }

  lemma {:induction false} NoneAtLeast(s: seq<Hypothesis>, v: real)
    requires forall i :: 0 <= i < |s| ==> s[i].p < v
    ensures AtLeast(s, v) == 0
  {
    if s != [] {
      NoneAtLeast(s[1..], v);
    }
  }

  /** In sorted order at least the hypotheses from i on count for i; exactly those if i is the first of its ties. */
  lemma AtLeastWhenSorted(o: seq<Hypothesis>, i: nat)
    requires Sorted(o) && i < |o|
    ensures AtLeast(o, o[i].p) >= |o| - i
    ensures (forall j :: 0 <= j < i ==> o[j].p < o[i].p) ==> AtLeast(o, o[i].p) == |o| - i
  {
    assert o == o[..i] + o[i..];
    AtLeastAppend(o[..i], o[i..], o[i].p);
    AllAtLeast(o[i..], o[i].p);
    if forall j :: 0 <= j < i ==> o[j].p < o[i].p {
      NoneAtLeast(o[..i], o[i].p);
    }
  }

  lemma {:induction false} FirstOfTies(o: seq<Hypothesis>, i: nat) returns (f: nat)
    requires Sorted(o) && i < |o|
    ensures f <= i && o[f].p == o[i].p && forall j :: 0 <= j < f ==> o[j].p < o[f].p
  {
    f := i;
    if i > 0 && o[i - 1].p == o[i].p {
      f := FirstOfTies(o, i - 1);
    }
  }

  lemma RunningIsUpperBound(o: seq<Hypothesis>, i: nat, y: nat)
    requires Sorted(o) && i < |o| && y < |o| && o[y].p <= o[i].p
    ensures Corrected(o, o[y].p) <= Running(o, i + 1)
  {
    hide AtLeast, Running, Times, Min;
    RunningIsMaximum(o, i + 1);
    var f := FirstOfTies(o, y);
    AtLeastWhenSorted(o, f);
    assert f <= i;
    assert Corrected(o, o[y].p) == Min(1.0, Step(o, f));
  }

  /** The running maximum is the adjusted value: within ties only the first one matters. */
  lemma RunningIsAdjusted(o: seq<Hypothesis>, i: nat)
    requires Sorted(o) && i < |o|
    ensures IsAdjusted(o, o[i].p, Running(o, i + 1))
  {
    hide AtLeast, Running, Times, Min, Corrected, Step;
    var x := Running(o, i + 1);
    RunningIsMaximum(o, i + 1);
    forall h | h in o && h.p <= o[i].p ensures Corrected(o, h.p) <= x {
      var y :| 0 <= y < |o| && o[y] == h;
      RunningIsUpperBound(o, i, y);
    }
    if x != 0.0 {
      var j :| 0 <= j < i + 1 && x == Min(1.0, Step(o, j));
      AtLeastWhenSorted(o, j);
      StepBelowCorrected(o, j);
      RunningIsUpperBound(o, i, j);
      assert o[j] in o && o[j].p <= o[i].p && x == Corrected(o, o[j].p);
    }
  }

  lemma StepBelowCorrected(o: seq<Hypothesis>, j: nat)
    requires j < |o| && AtLeast(o, o[j].p) >= |o| - j
    ensures Min(1.0, Step(o, j)) > 0.0 ==> Min(1.0, Step(o, j)) <= Corrected(o, o[j].p)
  {
    hide AtLeast, Times;
    TimesGrows(|o| - j, AtLeast(o, o[j].p), o[j].p);
    TimesGrows(|o| - j, |o| - j, o[j].p);
  }

  // ----- The step-down test

  /** Holm's procedure: from the smallest p-value on, reject as long as p <= alpha / (hypotheses left). */
  function Rejected(o: seq<Hypothesis>, alpha: real, from: nat): nat
    requires from <= |o|
    decreases |o| - from
  {
    if from < |o| && o[from].p <= alpha / (|o| - from) as real then Rejected(o, alpha, from + 1) else from
  }

  lemma {:induction false} RejectedUpTo(o: seq<Hypothesis>, alpha: real, from: nat, i: nat)
    requires from <= i < |o|
    ensures i < Rejected(o, alpha, from) <==> forall j :: from <= j <= i ==> Step(o, j) <= alpha
    decreases |o| - from
  {
    hide Times;
    DividedThreshold(o[from].p, alpha, |o| - from);
    assert Step(o, from) == Times(|o| - from, o[from].p);
    if o[from].p <= alpha / (|o| - from) as real {
      if from < i {
        RejectedUpTo(o, alpha, from + 1, i);
      } else {
        RejectedGrows(o, alpha, from + 1);
      }
    }
  }

  lemma {:induction false} RejectedGrows(o: seq<Hypothesis>, alpha: real, from: nat)
    requires from <= |o|
    ensures from <= Rejected(o, alpha, from)
    decreases |o| - from
  {
    if from < |o| {
      RejectedGrows(o, alpha, from + 1);
    }
  }

  lemma DividedThreshold(p: real, alpha: real, n: nat)
    requires n > 0
    ensures p <= alpha / n as real <==> Times(n, p) <= alpha
  {
    var q := alpha / n as real;
    assert q * n as real == alpha;
    if p <= q {
      assert n as real * p <= n as real * q;
    } else {
      assert n as real * p > n as real * q;
    }
  }

  /** A hypothesis is rejected by the step-down test at level alpha exactly when its adjusted value is at most alpha. */
  lemma AdjustedIsStepDown(o: seq<Hypothesis>, alpha: real, i: nat, x: real)
    requires Sorted(o) && i < |o| && IsAdjusted(o, o[i].p, x)
    requires alpha < 1.0 && (alpha >= 0.0 || forall h :: h in o ==> h.p >= 0.0)
    ensures x <= alpha <==> i < Rejected(o, alpha, 0)
  {
    if alpha < 0.0 {
      assert o[0] in o;
      TimesGrows(0, |o|, o[0].p);
      assert Step(o, 0) >= 0.0 by { assert Times(0, o[0].p) == 0.0; }
    }
    hide AtLeast, Running, Rejected;
    RunningIsAdjusted(o, i);
    AdjustedLaws(o, o[i].p, x, o[i].p, Running(o, i + 1));
    RunningIsMaximum(o, i + 1);
    RejectedUpTo(o, alpha, 0, i);
    assert forall j :: 0 <= j < i + 1 ==> (Min(1.0, Step(o, j)) <= alpha <==> Step(o, j) <= alpha);
  }

  /** The test rejects the i-th hypothesis exactly when its adjusted value is at most alpha. */
  ghost predicate Agrees(o: seq<Hypothesis>, alpha: real, i: nat)
    requires i < |o|
  {
    forall x :: IsAdjusted(o, o[i].p, x) ==> (x <= alpha <==> i < Rejected(o, alpha, 0))
  }

  lemma AgreesByRunning(o: seq<Hypothesis>, alpha: real, i: nat)
    requires Sorted(o) && i < |o|
    ensures Agrees(o, alpha, i) <==> (Running(o, i + 1) <= alpha <==> i < Rejected(o, alpha, 0))
    ensures 0.0 <= Running(o, i + 1) <= 1.0
  {
    hide IsAdjusted, Running, Rejected;
    var r := Running(o, i + 1);
    RunningIsAdjusted(o, i);
    RunningIsMaximum(o, i + 1);
    AdjustedLaws(o, o[i].p, r, o[i].p, r);
    forall x | IsAdjusted(o, o[i].p, x) ensures x == r {
      AdjustedLaws(o, o[i].p, x, o[i].p, r);
    }
  }

  /** From level 1 on every adjusted value is within the level; below 0 none is, whatever the test does. */
  lemma AgreesExactly(o: seq<Hypothesis>, alpha: real, i: nat)
    requires Sorted(o) && i < |o|
    ensures Agrees(o, alpha, i) <==>
              if alpha < 0.0 then exists j :: 0 <= j <= i && Step(o, j) > alpha
              else alpha < 1.0 || forall j :: 0 <= j <= i ==> Step(o, j) <= alpha
  {
    hide Agrees, Running, Rejected, Step, IsAdjusted;
    AgreesByRunning(o, alpha, i);
    RejectedUpTo(o, alpha, 0, i);
    if 0.0 <= alpha < 1.0 {
      RunningIsAdjusted(o, i);
      AdjustedIsStepDown(o, alpha, i, Running(o, i + 1));
    }
  }

  /** The levels at which adjusted values and test agree on all hypotheses. */
  predicate AgreementLevel(o: seq<Hypothesis>, alpha: real) {
    if alpha < 0.0 then o == [] || Step(o, 0) > alpha
    else alpha < 1.0 || forall j :: 0 <= j < |o| ==> Step(o, j) <= alpha
  }

  /**
   For every level: adjusted values and the step-down test agree on all hypotheses if and only if the level lies
   in [0, 1), or is 1 or more and no p-value times the hypotheses left exceeds it, or is negative and the first
   of these products does.
   */
  lemma TestsAgreeExactly(o: seq<Hypothesis>, alpha: real)
    requires Sorted(o)
    ensures (forall i :: 0 <= i < |o| ==> Agrees(o, alpha, i)) <==> AgreementLevel(o, alpha)
  {
    hide Agrees, Step;
    forall i | 0 <= i < |o| && AgreementLevel(o, alpha) ensures Agrees(o, alpha, i) {
      AgreesExactly(o, alpha, i);
    }
    if o != [] {
      AgreesExactly(o, alpha, 0);
      AgreesExactly(o, alpha, |o| - 1);
    }
  }

  /** At level 1 the two can part: every adjusted value is at most 1, yet the test may reject nothing. */
  lemma LevelOneDiffers()
    ensures var o := [Hypothesis("a", 0.6), Hypothesis("b", 0.7)];
            && Sorted(o) && IsAdjusted(o, 0.6, 1.0) && Rejected(o, 1.0, 0) == 0
  {
    var o := [Hypothesis("a", 0.6), Hypothesis("b", 0.7)];
    RunningIsAdjusted(o, 0);
    assert Step(o, 0) == 1.2;
    assert Running(o, 0) == 0.0;
  }

  // ----- The program

  ghost predicate DistinctNames(s: seq<Hypothesis>) {
    forall i, j :: 0 <= i < j < |s| ==> s[i].name != s[j].name
  }

  method HolmAdjust(pvalues: seq<Hypothesis>) returns (adjusted: map<string, real>)
    requires DistinctNames(pvalues)
    ensures forall name :: name in adjusted <==> exists h :: h in pvalues && h.name == name
    ensures forall h :: h in pvalues ==> h.name in adjusted && IsAdjusted(pvalues, h.p, adjusted[h.name])
  {
    hide IsAdjusted, Running, Step, Times, Min, Max, Sorted, Sort, DistinctNames;
    var ordered := Sort(pvalues);
    SortSorts(pvalues);
    SortedNames(pvalues, ordered);
    adjusted := map[];
    var running := 0.0;
    StartOfRunning(ordered);
    NamesDiffer(ordered);
    for index := 0 to |ordered|
      invariant running == Running(ordered, index)
      invariant forall name :: name in adjusted <==> exists j :: 0 <= j < index && ordered[j].name == name
      invariant forall j :: 0 <= j < index ==> adjusted[ordered[j].name] == Running(ordered, j + 1)
    {
      NextOfRunning(ordered, index);
      running := Max(running, Min(1.0, Times(|ordered| - index, ordered[index].p)));
      adjusted := adjusted[ordered[index].name := running];
    }
    forall h | h in pvalues ensures h.name in adjusted && IsAdjusted(pvalues, h.p, adjusted[h.name]) {
      assert h in multiset(ordered);
      var j :| 0 <= j < |ordered| && ordered[j] == h;
      RunningIsAdjusted(ordered, j);
      AdjustedIgnoresOrder(ordered, pvalues, h.p, Running(ordered, j + 1));
    }
    forall name | name in adjusted ensures exists h :: h in pvalues && h.name == name {
      var j :| 0 <= j < |ordered| && ordered[j].name == name;
      assert ordered[j] in multiset(pvalues);
    }
  }

  lemma NamesDiffer(s: seq<Hypothesis>)
    requires DistinctNames(s)
    ensures forall i, j :: 0 <= i < j < |s| ==> s[i].name != s[j].name
  {
  }

  lemma StartOfRunning(o: seq<Hypothesis>)
    ensures Running(o, 0) == 0.0
  {
  }

  lemma NextOfRunning(o: seq<Hypothesis>, i: nat)
    requires i < |o|
    ensures Running(o, i + 1) == Max(Running(o, i), Min(1.0, Times(|o| - i, o[i].p)))
  {
  }

  lemma {:induction false} SortedNames(s: seq<Hypothesis>, t: seq<Hypothesis>)
    requires DistinctNames(s) && multiset(s) == multiset(t)
    ensures DistinctNames(t)
  {
    forall i, j | 0 <= i < j < |t| ensures t[i].name != t[j].name {
      assert t[i] in multiset(s) && t[j] in multiset(s);
      var k :| 0 <= k < |s| && s[k] == t[i];
      var m :| 0 <= m < |s| && s[m] == t[j];
      if k == m {
        OccursTwice(t, i, j);
        OccursOnce(s, k);
      }
    }
  }

  lemma OccursTwice(t: seq<Hypothesis>, i: nat, j: nat)
    requires i < j < |t| && t[i] == t[j]
    ensures multiset(t)[t[i]] >= 2
  {
    assert t == t[..i] + [t[i]] + t[i + 1..j] + [t[j]] + t[j + 1..];
  }

  lemma OccursOnce(s: seq<Hypothesis>, k: nat)
    requires k < |s| && DistinctNames(s)
    ensures multiset(s)[s[k]] == 1
  {
    assert s == s[..k] + [s[k]] + s[k + 1..];
    assert s[k] !in s[..k] && s[k] !in s[k + 1..];
    assert multiset(s[..k])[s[k]] == 0 && multiset(s[k + 1..])[s[k]] == 0;
  }
}
