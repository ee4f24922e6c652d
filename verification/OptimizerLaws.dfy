/** What the optimizer's output looks like: its normal form, and how it depends on the input. */
module OptimizerLaws {
  import opened Wrappers
  import opened QueryTree
  import opened Optimizer

  /** Nothing is left to optimize. */
  predicate Normal(q: Qry) {
    q.Term? ||
    (&& q.args != []
     && (|q.args| == 1 ==> q.op.SCORE?)
     && (q.op.SUM? ==> NoDuplicates(q.args))
     && forall i :: 0 <= i < |q.args| ==> Normal(q.args[i]))
  }

  predicate HasTerm(q: Qry) {
    q.Term? || exists i :: 0 <= i < |q.args| && HasTerm(q.args[i])
  }

  // ----- Duplicates

  /** A query without what the duplicate test does not look at: names, weights, distances. */
  function Skeleton(q: Qry): Qry {
    if q.Term? then q
    else
      Node(if q.op.NEAR? then NEAR(0) else if q.op.WINDOW? then WINDOW(0) else q.op, "",
           seq(|q.args|, i requires 0 <= i < |q.args| => Skeleton(q.args[i])), [])
  }

  lemma SkeletonParts(q: Qry)
    requires q.Node?
    ensures var k := Skeleton(q);
            && k.Node? && |k.args| == |q.args| && k.name == "" && k.weights == []
            && forall i :: 0 <= i < |q.args| ==> k.args[i] == Skeleton(q.args[i])
  {
  }

  /** Two queries are duplicates exactly when nothing else tells them apart. */
  lemma {:induction false} DuplicateExactly(q1: Qry, q2: Qry)
    ensures Duplicate(q1, q2) <==> Skeleton(q1) == Skeleton(q2)
    decreases q1
  {
    if q1.Node? && q2.Node? {
      SkeletonParts(q1);
      SkeletonParts(q2);
      if |q1.args| == |q2.args| {
        forall i | 0 <= i < |q1.args|
          ensures Duplicate(q1.args[i], q2.args[i]) <==> Skeleton(q1).args[i] == Skeleton(q2).args[i]
        {
          DuplicateExactly(q1.args[i], q2.args[i]);
        }
        assert Skeleton(q1).args == Skeleton(q2).args <==>
          forall i :: 0 <= i < |q1.args| ==> Skeleton(q1).args[i] == Skeleton(q2).args[i];
      }
    }
  }

  // ----- The weights

  /** What one pass does: duplicates of `i` from `j` on drop to 0, and nothing else but `i` changes. */
  lemma {:induction false} AbsorbFacts(args: seq<Qry>, w: seq<nat>, i: nat, j: nat)
    requires |w| == |args| && i < j <= |args|
    ensures var r := Absorb(args, w, i, j);
            && w[i] <= r[i]
            && (forall k :: 0 <= k < j && k != i ==> r[k] == w[k])
            && (forall k :: j <= k < |args| ==> r[k] == if w[k] != 0 && Duplicate(args[i], args[k]) then 0 else w[k])
    decreases |args| - j
  {
    if j < |args| {
      if w[j] != 0 && Duplicate(args[i], args[j]) {
        AbsorbFacts(args, w[j := 0][i := w[i] + 1], i, j + 1);
      } else {
        AbsorbFacts(args, w, i, j + 1);
      }
    }
  }

  /** Arguments before `i` that keep a weight have no later duplicate with one. */
  ghost predicate Settled(args: seq<Qry>, w: seq<nat>, i: nat)
    requires |w| == |args| && i <= |args|
  {
    forall a, b :: 0 <= a < i && a < b < |args| && w[a] != 0 && w[b] != 0 ==> !Duplicate(args[a], args[b])
  }

  lemma {:induction false} WeightsSettled(args: seq<Qry>, w: seq<nat>, i: nat)
    requires |w| == |args| && i <= |args| && Settled(args, w, i)
    ensures Settled(args, WeightsFrom(args, w, i), |args|)
    ensures forall k :: 0 <= k < i && w[k] != 0 ==> WeightsFrom(args, w, i)[k] != 0
    ensures i == 0 && w != [] && w[0] != 0 ==> WeightsFrom(args, w, i)[0] != 0
    decreases |args| - i
  {
    if i < |args| {
      if w[i] == 0 {
        WeightsSettled(args, w, i + 1);
      } else {
        AbsorbFacts(args, w, i, i + 1);
        WeightsSettled(args, Absorb(args, w, i, i + 1), i + 1);
      }
    }
  }

  lemma {:induction false} NothingAbsorbed(args: seq<Qry>, w: seq<nat>, i: nat, j: nat)
    requires |w| == |args| && i < j <= |args| && NoDuplicates(args)
    ensures Absorb(args, w, i, j) == w
    decreases |args| - j
  {
    if j < |args| {
      NothingAbsorbed(args, w, i, j + 1);
    }
  }

  lemma {:induction false} AllKept(args: seq<Qry>, w: seq<nat>, i: nat)
    requires |w| == |args| && i <= |args| && NoDuplicates(args)
    ensures WeightsFrom(args, w, i) == w
    decreases |args| - i
  {
    if i < |args| {
      NothingAbsorbed(args, w, i, i + 1);
      AllKept(args, w, i + 1);
    }
  }

  /** A weight drops to 0 exactly when two arguments are duplicates; the first argument keeps its weight. */
  lemma ZeroWeightMeansDuplicate(args: seq<Qry>)
    ensures 0 in Weights(args) <==> !NoDuplicates(args)
    ensures args != [] ==> Weights(args)[0] != 0
  {
    WeightsSettled(args, Ones(|args|), 0);
    if NoDuplicates(args) {
      AllKept(args, Ones(|args|), 0);
    } else {
      var w := Weights(args);
      var a, b :| 0 <= a < b < |args| && Duplicate(args[a], args[b]);
      assert w[a] == 0 || w[b] == 0;
    }
  }

  lemma {:induction false} KeptNonEmpty(args: seq<Qry>, w: seq<nat>)
    requires |w| == |args| && args != [] && w[0] != 0
    ensures KeptArgs(args, w) != [] && |KeptArgs(args, w)| == |KeptWeights(w)|
    ensures forall i :: 0 <= i < |KeptArgs(args, w)| ==> KeptArgs(args, w)[i] in args
  {
    var last := |args| - 1;
    if last > 0 {
      KeptNonEmpty(args[..last], w[..last]);
      assert forall a :: a in args[..last] ==> a in args;
    }
  }

  // ----- Normal form

  lemma {:induction false} NormalIsConverted(q: Qry)
    requires Normal(q)
    ensures SumToWsum(q) == q
  {
    if q.Node? {
      forall i | 0 <= i < |q.args| ensures SumToWsum(q.args[i]) == q.args[i] {
        NormalIsConverted(q.args[i]);
      }
      assert seq(|q.args|, i requires 0 <= i < |q.args| => SumToWsum(q.args[i])) == q.args;
      ZeroWeightMeansDuplicate(q.args);
    }
  }

  /** With converted arguments, converting a node looks at that node only. */
  lemma NormalArgs(q: Qry)
    requires q.Node? && forall i :: 0 <= i < |q.args| ==> Normal(q.args[i])
    ensures SumToWsum(q) == Converted(q)
  {
    forall i | 0 <= i < |q.args| ensures SumToWsum(q.args[i]) == q.args[i] {
      NormalIsConverted(q.args[i]);
    }
    assert seq(|q.args|, i requires 0 <= i < |q.args| => SumToWsum(q.args[i])) == q.args;
  }

  /** The last step of optimizeQuery on a node whose arguments are optimized. */
  function Collapsed(c: Qry): Qry {
    if |c.Args()| == 1 && !(c.Node? && c.op.SCORE?) then c.Args()[0] else c
  }

  lemma OptimizeNode(q: Qry)
    requires q.Node? && OptimizedArgs(q.args) != []
    requires forall i :: 0 <= i < |OptimizedArgs(q.args)| ==> Normal(OptimizedArgs(q.args)[i])
    ensures Optimize(q) == Some(Collapsed(Converted(Node(q.op, q.name, OptimizedArgs(q.args), q.weights))))
  {
    NormalArgs(Node(q.op, q.name, OptimizedArgs(q.args), q.weights));
  }

  lemma CollapsedIsNormal(q: Qry)
    requires q.Node? && q.args != [] && forall i :: 0 <= i < |q.args| ==> Normal(q.args[i])
    ensures Normal(Collapsed(Converted(q)))
  {
    ZeroWeightMeansDuplicate(q.args);
    KeptNonEmpty(q.args, Weights(q.args));
  }

  lemma {:induction false} OptimizedArgsNormal(args: seq<Qry>)
    ensures forall i :: 0 <= i < |OptimizedArgs(args)| ==> Normal(OptimizedArgs(args)[i])
    decreases args, 0
  {
    if args != [] {
      OptimizeIsNormal(args[0]);
      OptimizedArgsNormal(args[1..]);
    }
  }

  /** The output has no empty node, no one-argument node but SCORE, and no SUM with duplicates. */
  lemma {:induction false} OptimizeIsNormal(q: Qry)
    ensures Optimize(q).Some? ==> Normal(Optimize(q).value)
    decreases q, 1
  {
    if q.Node? {
      OptimizedArgsNormal(q.args);
      if OptimizedArgs(q.args) != [] {
        OptimizeNode(q);
        CollapsedIsNormal(Node(q.op, q.name, OptimizedArgs(q.args), q.weights));
      }
    }
  }

  lemma {:induction false} NormalArgsOptimized(args: seq<Qry>)
    requires forall i :: 0 <= i < |args| ==> Normal(args[i])
    ensures OptimizedArgs(args) == args
    decreases args, 0
  {
    if args != [] {
      NormalIsFixed(args[0]);
      NormalArgsOptimized(args[1..]);
    }
  }

  lemma {:induction false} NormalIsFixed(q: Qry)
    requires Normal(q)
    ensures Optimize(q) == Some(q)
    decreases q, 1
  {
    if q.Node? {
      NormalArgsOptimized(q.args);
      NormalIsConverted(q);
      assert Node(q.op, q.name, q.args, q.weights) == q;
    }
  }

  /** Running the optimizer again changes nothing. */
  lemma OptimizeTwice(q: Qry)
    requires Optimize(q).Some?
    ensures Optimize(Optimize(q).value) == Optimize(q)
  {
    OptimizeIsNormal(q);
    NormalIsFixed(Optimize(q).value);
  }

  // ----- Types

  /** Optimization keeps the arguments' kinds, and the fields of inverted-list arguments. */
  lemma {:induction false} OptimizedArgsTyped(args: seq<Qry>, iop: bool, field: Option<string>)
    requires forall i :: 0 <= i < |args| ==> WellTyped(args[i]) && args[i].IsIop() == iop
    requires iop ==> forall i :: 0 <= i < |args| ==> FieldOf(args[i]) == field
    ensures forall i :: 0 <= i < |OptimizedArgs(args)| ==>
            WellTyped(OptimizedArgs(args)[i]) && OptimizedArgs(args)[i].IsIop() == iop
    ensures iop ==> forall i :: 0 <= i < |OptimizedArgs(args)| ==> FieldOf(OptimizedArgs(args)[i]) == field
    ensures iop && field.None? ==> OptimizedArgs(args) == []
    ensures iop && field.Some? ==> |OptimizedArgs(args)| == |args|
    ensures |OptimizedArgs(args)| <= |args|
    decreases args, 0
  {
    if args != [] {
      OptimizeTyped(args[0]);
      OptimizedArgsTyped(args[1..], iop, field);
    }
  }

  /** The output is a tree appendArg could have built, of the same kind and in the same field. */
  lemma {:induction false} OptimizeTyped(q: Qry)
    requires WellTyped(q)
    ensures q.IsIop() ==> (Optimize(q).None? <==> FieldOf(q).None?)
    ensures Optimize(q).Some? ==>
              && WellTyped(Optimize(q).value)
              && Optimize(q).value.IsIop() == q.IsIop()
              && (q.IsIop() ==> FieldOf(Optimize(q).value) == FieldOf(q))
    decreases q, 1
  {
    hide Converted, Collapsed, Normal, SumToWsum;
    if q.Node? {
      var iop := q.IsIop() || q.op.SCORE?;
      forall i | 0 <= i < |q.args| ensures WellTyped(q.args[i]) && q.args[i].IsIop() == iop {
        assert WellTyped(q.Args()[i]);
      }
      if q.args != [] {
        OptimizedArgsTyped(q.args, iop, FieldOf(q.args[0]));
      }
      OptimizedArgsNormal(q.args);
      var args := OptimizedArgs(q.args);
      if args != [] {
        OptimizeNode(q);
        ConvertedTyped(Node(q.op, q.name, args, q.weights));
        CollapsedTyped(Converted(Node(q.op, q.name, args, q.weights)));
      }
    }
  }

  lemma CollapsedTyped(c: Qry)
    requires WellTyped(c) && c.Node? && c.args != []
    ensures WellTyped(Collapsed(c)) && (c.op.SCORE? ==> Collapsed(c) == c)
    ensures !c.op.SCORE? ==> Collapsed(c).IsIop() == c.IsIop()
    ensures c.IsIop() ==> FieldOf(Collapsed(c)) == FieldOf(c)
  {
    assert WellTyped(c.Args()[0]);
  }

  lemma ConvertedTyped(q: Qry)
    requires WellTyped(q) && q.Node? && q.args != []
    ensures WellTyped(Converted(q)) && Converted(q).IsIop() == q.IsIop()
    ensures Converted(q).Node? && Converted(q).args != [] && (q.IsIop() || q.op.SCORE? ==> Converted(q) == q)
  {
    hide Weights, KeptArgs, KeptWeights;
    ZeroWeightMeansDuplicate(q.args);
    KeptNonEmpty(q.args, Weights(q.args));
    var kept := KeptArgs(q.args, Weights(q.args));
    if q.op.SUM? {
      forall i | 0 <= i < |kept| ensures WellTyped(kept[i]) && !kept[i].IsIop() {
        var k :| 0 <= k < |q.args| && q.args[k] == kept[i];
        assert WellTyped(q.Args()[k]);
      }
    }
  }
}
