/**
 The query optimizer: it drops operators that lost all their arguments, replaces operators that have
 a single argument by that argument, and turns a SUM with duplicate arguments into a WSUM.
 */
module Optimizer {
  import opened Wrappers
  import opened QueryTree

  // ----- Duplicates

  predicate SameClass(o1: Op, o2: Op) {
    match o1
    case NEAR(_) => o2.NEAR?
    case WINDOW(_) => o2.WINDOW?
    case _ => o1 == o2
  }

  /** The duplicate test looks at operator classes, terms and fields; not at distances or weights. */
  predicate Duplicate(q1: Qry, q2: Qry) {
    if q1.Term? || q2.Term? then q1 == q2
    else
      && SameClass(q1.op, q2.op)
      && |q1.args| == |q2.args|
      && forall i :: 0 <= i < |q1.args| ==> Duplicate(q1.args[i], q2.args[i])
  }

  /** The loop form of the duplicate test. */
  method IsDuplicate(q1: Qry, q2: Qry) returns (b: bool)
    ensures b == Duplicate(q1, q2)
    decreases q1
  {
    if q1.Term? != q2.Term? || (q1.Node? && !SameClass(q1.op, q2.op)) {
      return false;
    }
    if q1.Term? {
      return q1.term == q2.term && q1.field == q2.field;
    }
    if |q1.args| != |q2.args| {
      return false;
    }
    for i := 0 to |q1.args|
      invariant forall j :: 0 <= j < i ==> Duplicate(q1.args[j], q2.args[j])
    {
      var same := IsDuplicate(q1.args[i], q2.args[i]);
      if !same {
        return false;
      }
    }
    return true;
  }

  /** No two arguments are duplicates. */
  predicate NoDuplicates(args: seq<Qry>) {
    forall i, j :: 0 <= i < j < |args| ==> !Duplicate(args[i], args[j])
  }

  // ----- The weights of a SUM

  /** One pass over the later arguments: duplicates of argument `i` give their weight to it. */
  function Absorb(args: seq<Qry>, w: seq<nat>, i: nat, j: nat): (r: seq<nat>)
    requires |w| == |args| && i < j <= |args|
    ensures |r| == |w|
    decreases |args| - j
  {
    if j == |args| then w
    else if w[j] != 0 && Duplicate(args[i], args[j]) then Absorb(args, w[j := 0][i := w[i] + 1], i, j + 1)
    else Absorb(args, w, i, j + 1)
  }

  function WeightsFrom(args: seq<Qry>, w: seq<nat>, i: nat): (r: seq<nat>)
    requires |w| == |args| && i <= |args|
    ensures |r| == |w|
    decreases |args| - i
  {
    if i == |args| then w
    else if w[i] == 0 then WeightsFrom(args, w, i + 1)
    else WeightsFrom(args, Absorb(args, w, i, i + 1), i + 1)
  }

  function Ones(n: nat): (r: seq<nat>)
    ensures |r| == n && forall i :: 0 <= i < n ==> r[i] == 1
  {
    seq(n, i => 1)
  }

  /** How many arguments each argument stands for; 0 for a duplicate of an earlier one. */
  function Weights(args: seq<Qry>): (r: seq<nat>)
    ensures |r| == |args|
  {
    WeightsFrom(args, Ones(|args|), 0)
  }

  /** The two nested loops, updating the list of weights in place. */
  method CountDuplicates(args: seq<Qry>) returns (w: seq<nat>)
    ensures w == Weights(args)
  {
    hide WeightsFrom, Duplicate;
    var weights := new nat[|args|](i => 1);
    assert weights[..] == Ones(|args|);
    for i := 0 to |args|
      invariant WeightsFrom(args, weights[..], i) == Weights(args)
    {
      WeightsStep(args, weights[..], i);
      if weights[i] != 0 {
        ghost var before := weights[..];
        for j := i + 1 to |args|
          invariant weights[i] != 0
          invariant Absorb(args, weights[..], i, j) == Absorb(args, before, i, i + 1)
        {
          if weights[j] != 0 {
            var same := IsDuplicate(args[i], args[j]);
            if same {
              ghost var w0 := weights[..];
              weights[j] := 0;
              weights[i] := weights[i] + 1;
              assert weights[..] == w0[j := 0][i := w0[i] + 1];
            }
          }
        }
      }
    }
    WeightsStep(args, weights[..], |args|);
    return weights[..];
  }

  lemma WeightsStep(args: seq<Qry>, w: seq<nat>, i: nat)
    requires |w| == |args| && i <= |args|
    ensures WeightsFrom(args, w, i) ==
              if i == |args| then w
              else if w[i] == 0 then WeightsFrom(args, w, i + 1)
              else WeightsFrom(args, Absorb(args, w, i, i + 1), i + 1)
  {
  }

  /** The weights that are left, and the arguments that keep one. */
  function KeptArgs(args: seq<Qry>, w: seq<nat>): (r: seq<Qry>)
    requires |w| == |args|
  {
    if args == [] then []
    else
      var last := |args| - 1;
      KeptArgs(args[..last], w[..last]) + (if w[last] != 0 then [args[last]] else [])
  }

  function KeptWeights(w: seq<nat>): (r: seq<real>) {
    if w == [] then []
    else
      var last := |w| - 1;
      KeptWeights(w[..last]) + (if w[last] != 0 then [w[last] as real] else [])
  }

  /** The conversion of one node whose arguments are already converted. */
  function Converted(q: Qry): Qry {
    if q.Term? || !q.op.SUM? || 0 !in Weights(q.args) then q
    else Node(WSUM, "#WSUM", KeptArgs(q.args, Weights(q.args)), KeptWeights(Weights(q.args)))
  }

  function SumToWsum(q: Qry): Qry {
    if q.Term? then q
    else Converted(Node(q.op, q.name, seq(|q.args|, i requires 0 <= i < |q.args| => SumToWsum(q.args[i])), q.weights))
  }

  /** _optimizeSumToWsum, replacing the arguments one by one. */
  method ConvertSums(q: Qry) returns (r: Qry)
    ensures r == SumToWsum(q)
    decreases q
  {
    if q.Term? {
      return q;
    }
    var args := q.args;
    for i := 0 to |args|
      invariant |args| == |q.args|
      invariant forall j :: 0 <= j < i ==> args[j] == SumToWsum(q.args[j])
      invariant forall j :: i <= j < |args| ==> args[j] == q.args[j]
    {
      var arg := ConvertSums(args[i]);
      args := args[i := arg];
    }
    assert args == seq(|q.args|, i requires 0 <= i < |q.args| => SumToWsum(q.args[i]));
    var node := Node(q.op, q.name, args, q.weights);
    if !q.op.SUM? {
      return node;
    }
    var w := CountDuplicates(args);
    if 0 !in w {
      return node;
    }
    var wsumArgs: seq<Qry>, wsumWeights: seq<real> := [], [];
    for i := 0 to |args|
      invariant wsumArgs == KeptArgs(args[..i], w[..i]) && wsumWeights == KeptWeights(w[..i])
    {
      assert args[..i + 1][..i] == args[..i] && w[..i + 1][..i] == w[..i];
      if w[i] != 0 {
        wsumArgs, wsumWeights := wsumArgs + [args[i]], wsumWeights + [w[i] as real];
      }
    }
    assert args[..|args|] == args && w[..|args|] == w;
    return Node(WSUM, "#WSUM", wsumArgs, wsumWeights);
  }

  // ----- The optimizer

  /** The arguments after optimization, without those that vanished; their weights are not touched. */
  function OptimizedArgs(args: seq<Qry>): seq<Qry>
    decreases args, 0
  {
    if args == [] then []
    else
      match Optimize(args[0])
      case None => OptimizedArgs(args[1..])
      case Some(a) => [a] + OptimizedArgs(args[1..])
  }

  function Optimize(q: Qry): Option<Qry>
    decreases q, 1
  {
    if q.Term? then Some(q)
    else
      var args := OptimizedArgs(q.args);
      if args == [] then None
      else
        var c := SumToWsum(Node(q.op, q.name, args, q.weights));
        Some(if |c.Args()| == 1 && !(c.Node? && c.op.SCORE?) then c.Args()[0] else c)
  }

  /** optimizeQuery: the arguments are visited from the last to the first, so deleting one is safe. */
  method OptimizeQuery(q: Qry) returns (r: Option<Qry>)
    ensures r == Optimize(q)
    decreases q
  {
    if q.Term? {
      return Some(q);
    }
    var args := q.args;
    var i := |q.args|;
    while i > 0
      invariant 0 <= i <= |q.args| <= |args| + (|q.args| - i)
      invariant i <= |args| && args[..i] == q.args[..i] && args[i..] == OptimizedArgs(q.args[i..])
    {
      i := i - 1;
      assert args[i] == q.args[..i + 1][i] == q.args[i];
      assert q.args[i..] == [q.args[i]] + q.args[i + 1..];
      assert args[..i] == args[..i + 1][..i] == q.args[..i + 1][..i] == q.args[..i];
      var after := OptimizeQuery(args[i]);
      match after {
        case None => args := args[..i] + args[i + 1..];
        case Some(a) => args := args[i := a];
      }
    }
    assert args == args[0..] == OptimizedArgs(q.args) by { assert q.args[0..] == q.args; }
    if |args| == 0 {
      return None;
    }
    var c := ConvertSums(Node(q.op, q.name, args, q.weights));
    if |c.Args()| == 1 && !(c.Node? && c.op.SCORE?) {
      return Some(c.Args()[0]);
    }
    return Some(c);
  }
}
