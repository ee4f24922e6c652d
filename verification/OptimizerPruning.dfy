/** Subtrees without terms: what the query is without them, and when optimizing it is the same. */
module OptimizerPruning {
  import opened Wrappers
  import opened QueryTree
  import opened Optimizer
  import opened OptimizerLaws

  /** The tree without the subtrees that hold no term; an argument of a WSUM takes its weight along. */
  function Prune(q: Qry): Option<Qry>
    decreases q, 1
  {
    if q.Term? then Some(q)
    else if PrunedArgs(q.args) == [] then None
    else
      var weights := if q.op.WSUM? then PrunedWeights(q.args, q.weights) else q.weights;
      Some(Node(q.op, q.name, PrunedArgs(q.args), weights))
  }

  function PrunedArgs(args: seq<Qry>): seq<Qry>
    decreases args, 0
  {
    if args == [] then []
    else
      match Prune(args[0])
      case None => PrunedArgs(args[1..])
      case Some(a) => [a] + PrunedArgs(args[1..])
  }

  /** The weights of the arguments that stay. */
  function PrunedWeights(args: seq<Qry>, weights: seq<real>): seq<real>
    decreases args, 0
  {
    if args == [] || weights == [] then weights
    else (if Prune(args[0]).None? then [] else [weights[0]]) + PrunedWeights(args[1..], weights[1..])
  }

  lemma {:induction false} PrunedArgsKeepTerms(args: seq<Qry>)
    ensures |OptimizedArgs(args)| == |PrunedArgs(args)|
    ensures PrunedArgs(args) == [] <==> forall i :: 0 <= i < |args| ==> !HasTerm(args[i])
    ensures forall i :: 0 <= i < |PrunedArgs(args)| ==> NoEmptyNode(PrunedArgs(args)[i])
    decreases args, 0
  {
    if args != [] {
      PruneKeepsTerms(args[0]);
      PrunedArgsKeepTerms(args[1..]);
      assert forall i :: 1 <= i < |args| ==> args[i] == args[1..][i - 1];
    }
  }

  /** Optimizing and pruning leave nothing of the same queries: those without a term. */
  lemma {:induction false} PruneKeepsTerms(q: Qry)
    ensures Optimize(q).None? <==> Prune(q).None?
    ensures Prune(q).None? <==> !HasTerm(q)
    ensures Prune(q).Some? ==> NoEmptyNode(Prune(q).value)
    decreases q, 1
  {
    if q.Node? {
      PrunedArgsKeepTerms(q.args);
    }
  }

  // ----- Types

  lemma {:induction false} PrunedWeightCount(args: seq<Qry>, weights: seq<real>)
    requires |args| <= |weights|
    ensures |PrunedWeights(args, weights)| == |weights| - |args| + |PrunedArgs(args)| && |PrunedArgs(args)| <= |args|
    ensures |PrunedArgs(args)| == |args| ==> PrunedWeights(args, weights) == weights
  {
    hide Prune;
    if args != [] {
      PrunedWeightCount(args[1..], weights[1..]);
      assert weights == [weights[0]] + weights[1..];
    }
  }

  lemma {:induction false} PrunedArgsTyped(args: seq<Qry>, iop: bool, field: Option<string>)
    requires forall i :: 0 <= i < |args| ==> WellTyped(args[i]) && args[i].IsIop() == iop
    requires iop ==> forall i :: 0 <= i < |args| ==> FieldOf(args[i]) == field
    ensures forall i :: 0 <= i < |PrunedArgs(args)| ==>
            WellTyped(PrunedArgs(args)[i]) && PrunedArgs(args)[i].IsIop() == iop
    ensures iop ==> forall i :: 0 <= i < |PrunedArgs(args)| ==> FieldOf(PrunedArgs(args)[i]) == field
    ensures iop && field.None? ==> PrunedArgs(args) == []
    ensures iop && field.Some? ==> |PrunedArgs(args)| == |args|
    ensures |PrunedArgs(args)| <= |args|
    decreases args, 0
  {
    if args != [] {
      PruneTyped(args[0]);
      PrunedArgsTyped(args[1..], iop, field);
    }
  }

  /** Pruning keeps types, kinds and fields. */
  lemma {:induction false} PruneTyped(q: Qry)
    requires WellTyped(q)
    ensures q.IsIop() ==> (Prune(q).None? <==> FieldOf(q).None?)
    ensures Prune(q).Some? ==>
              && WellTyped(Prune(q).value)
              && Prune(q).value.IsIop() == q.IsIop()
              && (q.IsIop() ==> FieldOf(Prune(q).value) == FieldOf(q))
    decreases q, 1
  {
    if q.Node? {
      var iop := q.IsIop() || q.op.SCORE?;
      forall i | 0 <= i < |q.args| ensures WellTyped(q.args[i]) && q.args[i].IsIop() == iop {
        assert WellTyped(q.Args()[i]);
      }
      if q.args != [] {
        PrunedArgsTyped(q.args, iop, FieldOf(q.args[0]));
      }
      if q.op.WSUM? {
        PrunedWeightCount(q.args, q.weights);
      }
    }
  }

  // ----- Trees up to the weights of their WSUM nodes

  /** The tree with every WSUM's weights taken away. */
  function Erased(q: Qry): Qry {
    if q.Term? then q
    else
      var args := seq(|q.args|, i requires 0 <= i < |q.args| => Erased(q.args[i]));
      Node(q.op, q.name, args, if q.op.WSUM? then [] else q.weights)
  }

  /** Optimized arguments that differ in weights at most. */
  predicate Alike(a: seq<Qry>, b: seq<Qry>) {
    |a| == |b| && forall k :: 0 <= k < |a| ==> Erased(a[k]) == Erased(b[k])
  }

  lemma {:induction false} ErasedDuplicate(a: Qry, b: Qry)
    ensures Duplicate(a, b) <==> Duplicate(Erased(a), Erased(b))
  {
    if a.Node? && b.Node? && |a.args| == |b.args| {
      forall i | 0 <= i < |a.args|
        ensures Duplicate(a.args[i], b.args[i]) <==> Duplicate(Erased(a).args[i], Erased(b).args[i])
      {
        ErasedDuplicate(a.args[i], b.args[i]);
      }
    }
  }

  lemma AlikeDuplicates(a: seq<Qry>, b: seq<Qry>, i: nat, j: nat)
    requires Alike(a, b) && i < |a| && j < |a|
    ensures Duplicate(a[i], a[j]) <==> Duplicate(b[i], b[j])
  {
    hide Duplicate, Erased;
    ErasedDuplicate(a[i], a[j]);
    ErasedDuplicate(b[i], b[j]);
  }

  lemma {:induction false} AlikeAbsorb(a: seq<Qry>, b: seq<Qry>, w: seq<nat>, i: nat, j: nat)
    requires Alike(a, b) && |w| == |a| && i < j <= |a|
    ensures Absorb(a, w, i, j) == Absorb(b, w, i, j)
    decreases |a| - j
  {
    hide Alike, Duplicate;
    AlikeLength(a, b);
    if j < |a| {
      AlikeDuplicates(a, b, i, j);
      AlikeAbsorb(a, b, w, i, j + 1);
      AlikeAbsorb(a, b, w[j := 0][i := w[i] + 1], i, j + 1);
    }
  }

  lemma AlikeLength(a: seq<Qry>, b: seq<Qry>)
    requires Alike(a, b)
    ensures |a| == |b|
  {
  }

  lemma {:induction false} AlikeWeightsFrom(a: seq<Qry>, b: seq<Qry>, w: seq<nat>, i: nat)
    requires Alike(a, b) && |w| == |a| && i <= |a|
    ensures |a| == |b| && WeightsFrom(a, w, i) == WeightsFrom(b, w, i)
    decreases |a| - i
  {
    hide Alike, Absorb;
    AlikeLength(a, b);
    if i < |a| {
      AlikeAbsorb(a, b, w, i, i + 1);
      AlikeWeightsFrom(a, b, w, i + 1);
      AlikeWeightsFrom(a, b, Absorb(a, w, i, i + 1), i + 1);
    }
  }

  lemma {:induction false} AlikeKept(a: seq<Qry>, b: seq<Qry>, w: seq<nat>)
    requires Alike(a, b) && |w| == |a|
    ensures Alike(KeptArgs(a, w), KeptArgs(b, w))
    ensures KeptArgs(a, w) == KeptArgs(b, w) <==> forall k :: 0 <= k < |a| && w[k] != 0 ==> a[k] == b[k]
    decreases |a|
  {
    AlikeLength(a, b);
    if a != [] {
      var last := |a| - 1;
      AlikeFront(a, b, w);
      hide Alike, Erased;
      AlikeKept(a[..last], b[..last], w[..last]);
      var ka, kb := KeptArgs(a[..last], w[..last]), KeptArgs(b[..last], w[..last]);
      AlikeLength(ka, kb);
      AlikeLast(ka, kb, a[last], b[last]);
      LastApart(ka, kb, a[last], b[last]);
    }
  }

  lemma AlikeFront(a: seq<Qry>, b: seq<Qry>, w: seq<nat>)
    requires Alike(a, b) && a != [] && |w| == |a|
    ensures var last := |a| - 1;
            && Erased(a[last]) == Erased(b[last]) && Alike(a[..last], b[..last])
            && ((forall k :: 0 <= k < |a| && w[k] != 0 ==> a[k] == b[k]) <==>
                  (w[last] != 0 ==> a[last] == b[last])
                  && forall k :: 0 <= k < last && w[..last][k] != 0 ==> a[..last][k] == b[..last][k])
  {
    hide Erased;
    var last := |a| - 1;
    assert forall k :: 0 <= k < last ==> a[..last][k] == a[k] && b[..last][k] == b[k] && w[..last][k] == w[k];
  }

  lemma AlikeLast(s: seq<Qry>, t: seq<Qry>, x: Qry, y: Qry)
    requires Alike(s, t) && Erased(x) == Erased(y)
    ensures Alike(s + [x], t + [y])
  {
    hide Erased;
  }

  lemma LastApart(s: seq<Qry>, t: seq<Qry>, x: Qry, y: Qry)
    requires |s| == |t|
    ensures s + [x] == t + [y] <==> s == t && x == y
  {
    if s + [x] == t + [y] {
      assert (s + [x])[..|s|] == s && (t + [y])[..|t|] == t;
      assert (s + [x])[|s|] == x && (t + [y])[|t|] == y;
    }
  }

  // ----- The optimizer on alike arguments

  /** What optimizing makes of a node with these optimized arguments. */
  function Finished(op: Op, name: string, args: seq<Qry>, weights: seq<real>): Qry {
    Collapsed(Converted(Node(op, name, args, weights)))
  }

  /** The weights that decide which arguments stay: those of a SUM with duplicates drop to 0. */
  function Staying(op: Op, args: seq<Qry>): (w: seq<nat>)
    ensures |w| == |args|
  {
    if op.SUM? then Weights(args) else Ones(|args|)
  }

  lemma FinishedSum(name: string, a: seq<Qry>, b: seq<Qry>, weights: seq<real>)
    requires Alike(a, b) && a != []
    ensures Erased(Finished(SUM, name, a, weights)) == Erased(Finished(SUM, name, b, weights))
    ensures Finished(SUM, name, a, weights) == Finished(SUM, name, b, weights)
            <==> forall k :: 0 <= k < |a| && Weights(a)[k] != 0 ==> a[k] == b[k]
  {
    hide WeightsFrom, Duplicate;
    AlikeWeightsFrom(a, b, Ones(|a|), 0);
    AlikeKept(a, b, Weights(a));
    hide KeptArgs, KeptWeights, Weights;
    if 0 in Weights(a) {
      var kept := KeptWeights(Weights(a));
      ErasedNode(WSUM, "#WSUM", KeptArgs(a, Weights(a)), KeptArgs(b, Weights(a)), kept, kept);
    } else {
      ErasedNode(SUM, name, a, b, weights, weights);
    }
  }

  /** Nodes over alike arguments are alike, also when they collapse to a single argument. */
  lemma ErasedNode(op: Op, name: string, a: seq<Qry>, b: seq<Qry>, v: seq<real>, w: seq<real>)
    requires Alike(a, b) && (op.WSUM? || v == w)
    ensures Erased(Node(op, name, a, v)) == Erased(Node(op, name, b, w))
    ensures Erased(Collapsed(Node(op, name, a, v))) == Erased(Collapsed(Node(op, name, b, w)))
    ensures Collapsed(Node(op, name, a, v)) == Collapsed(Node(op, name, b, w))
            <==> a == b && (|a| >= 2 || a == [] || op.SCORE? ==> v == w)
  {
    var x, y := Node(op, name, a, v), Node(op, name, b, w);
    assert Erased(x) == Erased(y) by {
      assert Erased(x).args == Erased(y).args;
    }
    assert |a| == 1 ==> (a[0] == b[0] <==> a == b);
  }

  lemma FinishedOther(op: Op, name: string, a: seq<Qry>, b: seq<Qry>, v: seq<real>, w: seq<real>)
    requires Alike(a, b) && a != [] && !op.SUM? && (op.WSUM? || v == w)
    ensures Erased(Finished(op, name, a, v)) == Erased(Finished(op, name, b, w))
    ensures Finished(op, name, a, v) == Finished(op, name, b, w)
            <==> (forall k :: 0 <= k < |a| ==> a[k] == b[k]) && (op.WSUM? && |a| >= 2 ==> v == w)
  {
    hide Erased;
    ErasedNode(op, name, a, b, v, w);
    assert a == b <==> forall k :: 0 <= k < |a| ==> a[k] == b[k];
  }

  // ----- When optimizing is optimizing the pruned tree

  /** Every WSUM has a weight for each of its arguments, as appendArg builds it. */
  predicate HasWeights(q: Qry) {
    q.Term? || ((q.op.WSUM? ==> |q.args| <= |q.weights|) && forall i :: 0 <= i < |q.args| ==> HasWeights(q.args[i]))
  }

  lemma {:induction false} TypedHasWeights(q: Qry)
    requires WellTyped(q)
    ensures HasWeights(q)
  {
    if q.Node? {
      forall i | 0 <= i < |q.args| ensures HasWeights(q.args[i]) {
        assert q.args[i] == q.Args()[i];
        TypedHasWeights(q.args[i]);
      }
    }
  }

  /**
   No WSUM that the optimizer keeps loses an argument.  A WSUM with one argument left is not kept, and what it
   drops as a duplicate does not matter.
   */
  predicate Intact(q: Qry)
    decreases q, 1
  {
    q.Term? ||
    (&& (q.op.WSUM? && |OptimizedArgs(q.args)| >= 2 ==> |OptimizedArgs(q.args)| == |q.args|)
     && IntactArgs(q.args, Staying(q.op, OptimizedArgs(q.args))))
  }

  predicate IntactArgs(args: seq<Qry>, w: seq<nat>)
    requires |w| == |OptimizedArgs(args)|
    decreases args, 0
  {
    if args == [] then true
    else if Optimize(args[0]).None? then IntactArgs(args[1..], w)
    else (w[0] != 0 ==> Intact(args[0])) && IntactArgs(args[1..], w[1..])
  }

  lemma {:induction false} PrunedArgsAlike(args: seq<Qry>, w: seq<nat>)
    requires (forall i :: 0 <= i < |args| ==> HasWeights(args[i])) && |w| == |OptimizedArgs(args)|
    ensures var a, b := OptimizedArgs(args), OptimizedArgs(PrunedArgs(args));
            Alike(a, b) && (IntactArgs(args, w) <==> forall k :: 0 <= k < |a| && w[k] != 0 ==> a[k] == b[k])
    decreases args, 0
  {
    hide Intact, Erased, Prune, Optimize, HasWeights;
    if args == [] {
      NothingAlike();
    } else {
      PruneAlike(args[0]);
      if Optimize(args[0]).None? {
        PrunedArgsAlike(args[1..], w);
      } else {
        PrunedArgsAlike(args[1..], w[1..]);
        var a, b := OptimizedArgs(args), OptimizedArgs(PrunedArgs(args));
        PrunedHead(args);
        FrontAlike(a, b, w);
      }
    }
  }

  lemma NothingAlike()
    ensures OptimizedArgs([]) == [] && PrunedArgs([]) == []
  {
  }

  lemma PrunedHead(args: seq<Qry>)
    requires args != [] && Optimize(args[0]).Some? && Prune(args[0]).Some? && Optimize(Prune(args[0]).value).Some?
    ensures OptimizedArgs(args) == [Optimize(args[0]).value] + OptimizedArgs(args[1..])
    ensures OptimizedArgs(PrunedArgs(args))
            == [Optimize(Prune(args[0]).value).value] + OptimizedArgs(PrunedArgs(args[1..]))
  {
    var p := PrunedArgs(args);
    assert p == [Prune(args[0]).value] + PrunedArgs(args[1..]) && p[1..] == PrunedArgs(args[1..]);
  }

  lemma FrontAlike(a: seq<Qry>, b: seq<Qry>, w: seq<nat>)
    requires a != [] && b != [] && Erased(a[0]) == Erased(b[0]) && Alike(a[1..], b[1..]) && |w| == |a|
    ensures Alike(a, b)
    ensures (forall k :: 0 <= k < |a| && w[k] != 0 ==> a[k] == b[k]) <==>
            (w[0] != 0 ==> a[0] == b[0]) && forall k :: 0 <= k < |a| - 1 && w[1..][k] != 0 ==> a[1..][k] == b[1..][k]
  {
    hide Erased;
    assert forall k :: 1 <= k < |a| ==> a[k] == a[1..][k - 1] && b[k] == b[1..][k - 1] && w[k] == w[1..][k - 1];
    if forall k :: 0 <= k < |a| && w[k] != 0 ==> a[k] == b[k] {
      assert forall k :: 0 <= k < |a| - 1 ==> w[1..][k] == w[k + 1] && a[1..][k] == a[k + 1] && b[1..][k] == b[k + 1];
    }
  }

  /** Optimizing a query and the pruned query gives the same up to weights, and exactly the same if it is intact. */
  lemma {:induction false} PruneAlike(q: Qry)
    requires HasWeights(q)
    ensures Optimize(q).None? <==> Prune(q).None?
    ensures Prune(q).Some? ==>
              && Optimize(Prune(q).value).Some?
              && Erased(Optimize(q).value) == Erased(Optimize(Prune(q).value).value)
              && (Optimize(q) == Optimize(Prune(q).value) <==> Intact(q))
    decreases q, 1
  {
    PruneKeepsTerms(q);
    if q.Node? {
      PrunedArgsAlike(q.args, Staying(q.op, OptimizedArgs(q.args)));
      if Prune(q).Some? {
        PruneNode(q);
      }
    }
  }

  lemma PruneNode(q: Qry)
    requires q.Node? && HasWeights(q) && Prune(q).Some? && OptimizedArgs(q.args) != []
    requires Alike(OptimizedArgs(q.args), OptimizedArgs(PrunedArgs(q.args)))
    ensures Optimize(q).Some? && Optimize(Prune(q).value).Some?
    ensures Erased(Optimize(q).value) == Erased(Optimize(Prune(q).value).value)
    ensures var a, b := OptimizedArgs(q.args), OptimizedArgs(PrunedArgs(q.args));
            Optimize(q) == Optimize(Prune(q).value) <==>
              && (forall k :: 0 <= k < |a| && Staying(q.op, a)[k] != 0 ==> a[k] == b[k])
              && (q.op.WSUM? && |a| >= 2 ==> |a| == |q.args|)
  {
    var p := Prune(q).value;
    var a, b := OptimizedArgs(q.args), OptimizedArgs(PrunedArgs(q.args));
    FinishedIsOptimized(q);
    AlikeLength(a, b);
    FinishedIsOptimized(p);
    PrunedArgsKeepTerms(q.args);
    hide Optimize, OptimizedArgs, PrunedArgs, Finished, Erased, Alike;
    if q.op.SUM? {
      FinishedSum(q.name, a, b, q.weights);
    } else {
      if q.op.WSUM? {
        PrunedWeightCount(q.args, q.weights);
      }
      FinishedOther(q.op, q.name, a, b, q.weights, p.weights);
    }
  }

  lemma FinishedIsOptimized(q: Qry)
    requires q.Node? && OptimizedArgs(q.args) != []
    ensures Optimize(q) == Some(Finished(q.op, q.name, OptimizedArgs(q.args), q.weights))
  {
    OptimizedArgsNormal(q.args);
    OptimizeNode(q);
  }

  /**
   Optimizing is optimizing the pruned tree if and only if no WSUM that is kept loses an argument: otherwise
   the weight of the lost argument stays behind.
   */
  lemma PruneExactly(q: Qry)
    requires HasWeights(q) && HasTerm(q)
    ensures Prune(q).Some? && (Optimize(q) == Optimize(Prune(q).value) <==> Intact(q))
  {
    PruneKeepsTerms(q);
    PruneAlike(q);
  }

  predicate WsumFree(q: Qry) {
    q.Term? || (!q.op.WSUM? && forall i :: 0 <= i < |q.args| ==> WsumFree(q.args[i]))
  }

  lemma {:induction false} WsumFreeHasWeights(q: Qry)
    requires WsumFree(q)
    ensures HasWeights(q)
  {
    if q.Node? {
      forall i | 0 <= i < |q.args| ensures HasWeights(q.args[i]) {
        WsumFreeHasWeights(q.args[i]);
      }
    }
  }

  lemma {:induction false} WsumFreeArgsIntact(args: seq<Qry>, w: seq<nat>)
    requires |w| == |OptimizedArgs(args)| && forall i :: 0 <= i < |args| ==> WsumFree(args[i])
    ensures IntactArgs(args, w)
    decreases args, 0
  {
    if args != [] {
      WsumFreeIntact(args[0]);
      if Optimize(args[0]).None? {
        WsumFreeArgsIntact(args[1..], w);
      } else {
        WsumFreeArgsIntact(args[1..], w[1..]);
      }
    }
  }

  lemma {:induction false} WsumFreeIntact(q: Qry)
    requires WsumFree(q)
    ensures Intact(q)
    decreases q, 1
  {
    hide Optimize, OptimizedArgs, Staying;
    if q.Node? {
      WsumFreeArgsIntact(q.args, Staying(q.op, OptimizedArgs(q.args)));
    }
  }

  /** Without WSUM nodes, optimizing is always optimizing the pruned tree. */
  lemma OptimizePrunes(q: Qry)
    requires WsumFree(q)
    ensures Optimize(q).None? <==> !HasTerm(q)
    ensures HasTerm(q) ==> Prune(q).Some? && Optimize(q) == Optimize(Prune(q).value)
  {
    PruneKeepsTerms(q);
    if HasTerm(q) {
      WsumFreeIntact(q);
      WsumFreeHasWeights(q);
      PruneExactly(q);
    }
  }
}
