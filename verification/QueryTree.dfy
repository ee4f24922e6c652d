/** Query trees: the operators, which nodes materialise lists, and which trees appendArg can build. */
module QueryTree {
  import opened Wrappers

  datatype Op =
    | SYN | NEAR(n: int) | WINDOW(n: int)
    | SCORE | AND | OR | SUM | WSUM

  /**
   `name` is the display name the parser stores; `weights` is the weight list of a WSUM node, which
   can be longer than `args` because deleting an argument does not delete its weight.
   */
  datatype Qry =
    | Term(term: string, field: string)
    | Node(op: Op, name: string, args: seq<Qry>, weights: seq<real>)
  {
    predicate IsIop() {
      Term? || op.SYN? || op.NEAR? || op.WINDOW?
    }

    function Args(): seq<Qry> {
      if Term? then [] else args
    }
  }

  /** The field an inverted-list node carries: the field of its first argument, if it has one. */
  function FieldOf(q: Qry): Option<string> {
    if q.Term? then Some(q.field)
    else if q.args == [] then None
    else FieldOf(q.args[0])
  }

  /** What appendArg checks of a node and its arguments. */
  predicate WellTypedNode(q: Qry) {
    q.Term? ||
    if q.IsIop() then
      && (forall i :: 0 <= i < |q.args| ==> q.args[i].IsIop())
      && (forall i :: 0 <= i < |q.args| ==> FieldOf(q.args[i]) == FieldOf(q.args[0]))
    else if q.op.SCORE? then
      |q.args| <= 1 && forall i :: 0 <= i < |q.args| ==> q.args[i].IsIop()
    else
      && (forall i :: 0 <= i < |q.args| ==> !q.args[i].IsIop())
      && (q.op.WSUM? ==> |q.args| <= |q.weights|)
  }

  predicate WellTyped(q: Qry) {
    && WellTypedNode(q)
    && forall i :: 0 <= i < |q.Args()| ==> WellTyped(q.Args()[i])
  }

  /** Every operator has an argument, as after optimization. */
  predicate NoEmptyNode(q: Qry) {
    && (q.Node? ==> q.args != [])
    && forall i :: 0 <= i < |q.Args()| ==> NoEmptyNode(q.Args()[i])
  }
}
