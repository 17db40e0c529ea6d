/** What parsed arithmetic and logic come to: the evaluation of a tree, in terms of numbers
    and truth. */
module Meaning {
  import opened Values
  import opened Precedence
  import opened Evaluator
  import Printing
  import Syntax

  /** Integers with signs, sums, differences and products. */
  predicate Arithmetic(e: Tree) {
    match e
    case Leaf(v) => v.Int?
    case Prefix(op, a) => op == Neg && Arithmetic(a)
    case Binary(Op(op), l, r) => op in {Add, Sub, Mul} && Arithmetic(l) && Arithmetic(r)
    case _ => false
  }

  function Number(e: Tree): int
    requires Arithmetic(e)
  {
    match e
    case Leaf(v) => v.i
    case Prefix(_, a) => -Number(a)
    case Binary(Op(op), l, r) =>
      if op == Add then Number(l) + Number(r) else if op == Sub then Number(l) - Number(r) else Number(l) * Number(r)
  }

  lemma {:induction false} ArithmeticMeans(c: Context, fuel: nat, e: Tree, names: seq<string>, vals: seq<Value>, w: World)
    requires |names| == |vals| && Arithmetic(e)
    ensures EvalExpr(c, fuel, Printing.Lowered(e), names, vals, w) == Normal(Int(Number(e)), vals, w)
    decreases e
  {
    match e
    case Leaf(v) =>
    case Prefix(op, a) => ArithmeticMeans(c, fuel, a, names, vals, w);
    case Binary(Op(op), l, r) =>
      ArithmeticMeans(c, fuel, l, names, vals, w);
      ArithmeticMeans(c, fuel, r, names, vals, w);
      SumMeans(c, fuel, op, l, r, names, vals, w);
  }

  lemma SumMeans(c: Context, fuel: nat, op: BinaryOp, l: Tree, r: Tree, names: seq<string>, vals: seq<Value>, w: World)
    requires |names| == |vals| && op in {Add, Sub, Mul} && Arithmetic(l) && Arithmetic(r)
    requires EvalExpr(c, fuel, Printing.Lowered(l), names, vals, w) == Normal(Int(Number(l)), vals, w)
    requires EvalExpr(c, fuel, Printing.Lowered(r), names, vals, w) == Normal(Int(Number(r)), vals, w)
    ensures
      EvalExpr(c, fuel, Printing.Lowered(Tree.Binary(Op(op), l, r)), names, vals, w)
      == Normal(Int(Number(Tree.Binary(Op(op), l, r))), vals, w)
  {
    ComparisonTree(op, l, r);
    hide Printing.Lowered;
    hide FloatOp;
  }

  /** Comparisons of such integers, joined by `and`, `or` and `!`. */
  predicate Logical(e: Tree) {
    match e
    case Leaf(v) => v.Bool?
    case Prefix(op, a) => op == Not && Logical(a)
    case Binary(Op(op), l, r) => op !in {Add, Sub, Mul, Div} && Arithmetic(l) && Arithmetic(r)
    case Binary(_, l, r) => Logical(l) && Logical(r)
    case _ => false
  }

  function Truth(e: Tree): bool
    requires Logical(e)
  {
    match e
    case Leaf(v) => v.b
    case Prefix(_, a) => !Truth(a)
    case Binary(AndOp, l, r) => Truth(l) && Truth(r)
    case Binary(OrOp, l, r) => Truth(l) || Truth(r)
    case Binary(Op(Eq), l, r) => Number(l) == Number(r)
    case Binary(Op(Ne), l, r) => Number(l) != Number(r)
    case Binary(Op(Lt), l, r) => Number(l) < Number(r)
    case Binary(Op(Le), l, r) => Number(l) <= Number(r)
    case Binary(Op(Gt), l, r) => Number(l) > Number(r)
    case Binary(Op(Ge), l, r) => Number(l) >= Number(r)
  }

  lemma {:induction false} LogicMeans(c: Context, fuel: nat, e: Tree, names: seq<string>, vals: seq<Value>, w: World)
    requires |names| == |vals| && Logical(e)
    ensures EvalExpr(c, fuel, Printing.Lowered(e), names, vals, w) == Normal(Bool(Truth(e)), vals, w)
    decreases e
  {
    match e
    case Leaf(v) =>
    case Prefix(op, a) => LogicMeans(c, fuel, a, names, vals, w);
    case Binary(Op(op), l, r) => ComparisonMeans(c, fuel, op, l, r, names, vals, w);
    case Binary(_, l, r) =>
      LogicMeans(c, fuel, l, names, vals, w);
      LogicMeans(c, fuel, r, names, vals, w);
  }

  lemma ComparisonMeans(c: Context, fuel: nat, op: BinaryOp, l: Tree, r: Tree, names: seq<string>, vals: seq<Value>, w: World)
    requires |names| == |vals| && op !in {Add, Sub, Mul, Div} && Arithmetic(l) && Arithmetic(r)
    ensures
      EvalExpr(c, fuel, Printing.Lowered(Tree.Binary(Op(op), l, r)), names, vals, w)
      == Normal(Bool(Truth(Tree.Binary(Op(op), l, r))), vals, w)
  {
    hide Number;
    hide Arithmetic;
    ArithmeticMeans(c, fuel, l, names, vals, w);
    ArithmeticMeans(c, fuel, r, names, vals, w);
    ComparisonTree(op, l, r);
    hide Printing.Lowered;
    hide FloatOp;
  }

  lemma ComparisonTree(op: BinaryOp, l: Tree, r: Tree)
    ensures Printing.Lowered(Tree.Binary(Op(op), l, r)) == Syntax.Binary(op, Printing.Lowered(l), Printing.Lowered(r))
  {
  }

  /** `and` and `or` give the operand that decides, and leave the other one alone: nil and
      false decide an `and`, everything else an `or`. */
  lemma ShortCircuit(c: Context, fuel: nat, l: Tree, r: Tree, names: seq<string>, vals: seq<Value>, w: World, o: Outcome)
    requires |names| == |vals| && o == EvalExpr(c, fuel, Printing.Lowered(l), names, vals, w) && o.Normal?
    ensures EvalExpr(c, fuel, Printing.Lowered(Tree.Binary(AndOp, l, r)), names, vals, w)
         == if o.value == Nil || o.value == Bool(false) then o else EvalExpr(c, fuel, Printing.Lowered(r), names, o.locals, o.world)
    ensures EvalExpr(c, fuel, Printing.Lowered(Tree.Binary(OrOp, l, r)), names, vals, w)
         == if o.value == Nil || o.value == Bool(false) then EvalExpr(c, fuel, Printing.Lowered(r), names, o.locals, o.world) else o
  {
    OperatorTrees(l, r);
    hide Printing.Lowered;
  }

  lemma OperatorTrees(l: Tree, r: Tree)
    ensures Printing.Lowered(Tree.Binary(AndOp, l, r)) == Syntax.And(Printing.Lowered(l), Printing.Lowered(r))
    ensures Printing.Lowered(Tree.Binary(OrOp, l, r)) == Syntax.Or(Printing.Lowered(l), Printing.Lowered(r))
  {
  }

  /** A condition that holds selects the first branch, one that does not the second. */
  lemma Selection(c: Context, fuel: nat, e: Tree, t: Syntax.Body, f: Syntax.Expr, names: seq<string>, vals: seq<Value>, w: World)
    requires |names| == |vals| && Logical(e)
    ensures EvalExpr(c, fuel, Syntax.If(Printing.Lowered(e), t, f), names, vals, w)
         == if Truth(e) then EvalBody(c, fuel, t, names, vals, w).Leave(|vals|) else EvalExpr(c, fuel, f, names, vals, w)
  {
    LogicMeans(c, fuel, e, names, vals, w);
    hide EvalBody;
  }

  /** A `while` ends where its condition does not hold; otherwise its body runs, a `break`
      ends it, and after the body or a `continue` it starts again. */
  lemma Repetition(c: Context, fuel: nat, e: Tree, body: Syntax.Body, names: seq<string>, vals: seq<Value>, w: World)
    requires |names| == |vals| && Logical(e) && fuel > 0
    ensures
      var s := Syntax.While(Printing.Lowered(e), body);
      var b := EvalBody(c, fuel, body, names, vals, w);
      EvalStmt(c, fuel, s, names, vals, w) ==
        if !Truth(e) then Normal(Nil, vals, w)
        else if b.Broken? then Normal(Nil, b.locals[..|vals|], b.world)
        else if b.Normal? || b.Continued? then EvalStmt(c, fuel - 1, s, names, b.locals[..|vals|], b.world)
        else b
  {
    LogicMeans(c, fuel, e, names, vals, w);
    hide EvalBody;
  }
}
