/** Runtime values and the operations the virtual machine performs on them. */
module Values {
  import opened Bytecode

  const MAX_ARGUMENTS := 255

  /** A floating point number; what the operations do to it is a parameter. */
  datatype Float = Float(bits: nat)

  datatype FloatOps = FloatOps(
    ofInt: int -> Float,
    add: (Float, Float) -> Float, sub: (Float, Float) -> Float,
    mul: (Float, Float) -> Float, div: (Float, Float) -> Float,
    neg: Float -> Float,
    eq: (Float, Float) -> bool, lt: (Float, Float) -> bool, le: (Float, Float) -> bool)

  /** Strings are interned, so comparing contents is comparing pointers. A closure
      is a fresh object each time one is built: `serial` is its identity. */
  datatype Value =
    | Nil | Bool(b: bool) | Int(i: int) | Flt(f: Float) | Str(chars: string)
    | Function(def: nat) | Closure(def: nat, serial: nat)
  {
    predicate IsNumber() { Int? || Flt? }
    predicate IsFalsey() { this == Nil || this == Bool(false) }
  }

  datatype Error =
    | OperandsMustBeNumbers | OperandMustBeNumber | DivisionByZero | UndefinedVariable
    | WrongArgumentCount | NotCallable | StackOverflow

  datatype Result<+T> = Ok(value: T) | Err(error: Error)

  datatype BinaryOp = Eq | Ne | Gt | Ge | Lt | Le | Add | Sub | Mul | Div

  datatype UnaryOp = Not | Neg

  /** Integer division truncates toward zero. */
  function TruncDiv(a: int, b: int): int
    requires b != 0
  {
    if a >= 0 then a / b else -((-a) / b)
  }

  function IntOp(op: BinaryOp, a: int, b: int): Value
    requires op == Div ==> b != 0
  {
    match op
    case Eq => Bool(a == b) case Ne => Bool(a != b)
    case Gt => Bool(a > b) case Ge => Bool(a >= b)
    case Lt => Bool(a < b) case Le => Bool(a <= b)
    case Add => Int(a + b) case Sub => Int(a - b)
    case Mul => Int(a * b) case Div => Int(TruncDiv(a, b))
  }

  function FloatOp(fl: FloatOps, op: BinaryOp, a: Float, b: Float): Value {
    match op
    case Eq => Bool(fl.eq(a, b)) case Ne => Bool(!fl.eq(a, b))
    case Gt => Bool(fl.lt(b, a)) case Ge => Bool(fl.le(b, a))
    case Lt => Bool(fl.lt(a, b)) case Le => Bool(fl.le(a, b))
    case Add => Flt(fl.add(a, b)) case Sub => Flt(fl.sub(a, b))
    case Mul => Flt(fl.mul(a, b)) case Div => Flt(fl.div(a, b))
  }

  function ForceFloat(fl: FloatOps, v: Value): Float
    requires v.IsNumber()
  {
    if v.Int? then fl.ofInt(v.i) else v.f
  }

  function ValuesEqual(fl: FloatOps, a: Value, b: Value): bool {
    if a.Flt? && b.Flt? then fl.eq(a.f, b.f) else a == b
  }

  function ApplyBinary(fl: FloatOps, op: BinaryOp, a: Value, b: Value): Result<Value> {
    if op == Eq then Ok(Bool(ValuesEqual(fl, a, b)))
    else if op == Ne then Ok(Bool(!ValuesEqual(fl, a, b)))
    else if op == Div && a.Int? && b.Int? && b.i == 0 then Err(DivisionByZero)
    else if !a.IsNumber() || !b.IsNumber() then Err(OperandsMustBeNumbers)
    else if a.Int? && b.Int? then Ok(IntOp(op, a.i, b.i))
    else Ok(FloatOp(fl, op, ForceFloat(fl, a), ForceFloat(fl, b)))
  }

  function ApplyUnary(fl: FloatOps, op: UnaryOp, a: Value): Result<Value> {
    match op
    case Not => Ok(Bool(a.IsFalsey()))
    case Neg =>
      if a.Int? then Ok(Int(-a.i))
      else if a.Flt? then Ok(Flt(fl.neg(a.f)))
      else Err(OperandMustBeNumber)
  }
}

/** Parse trees. A missing `else`, a bare `return` and a bare `break` out of a `loop`
    are the tree with a nil literal, which is the code the compiler emits for them. */
module Syntax {
  import opened Bytecode
  import opened Values

  datatype Expr =
    | Literal(value: Value)
    | Variable(name: string)
    | Assign(name: string, rhs: Expr)
    | Unary(uop: UnaryOp, arg: Expr)
    | Binary(bop: BinaryOp, left: Expr, right: Expr)
    | And(left: Expr, right: Expr)
    | Or(left: Expr, right: Expr)
    | If(cond: Expr, thenBody: Body, elseExpr: Expr)
    | Block(body: Body)
    | Loop(body: Body)
    | Call(callee: Expr, args: Args)
    | Fn(def: nat)

  datatype Args = NoArgs | Arg(first: Expr, rest: Args)

  /** What stands between braces: statements, then possibly a result expression. */
  datatype Body =
    | Done
    | Result(e: Expr)
    | Let(name: string, init: Expr, rest: Body)
    | Then(s: Stmt, rest: Body)

  datatype Stmt =
    | Discard(e: Expr)
    | While(cond: Expr, body: Body)
    | Break(value: Option<Expr>)
    | Continue
    | Return(e: Expr)

  datatype FnDef = FnDef(params: seq<string>, body: Body)

  /** Top-level code: global definitions and statements. */
  datatype Script =
    | End
    | Define(name: string, init: Expr, next: Script)
    | Run(s: Stmt, next: Script)

  datatype Program = Program(defs: seq<FnDef>, main: Script)

  function ArgCount(args: Args): nat {
    if args.NoArgs? then 0 else 1 + ArgCount(args.rest)
  }

  /** Names declared by a body at its own level. */
  function LetCount(b: Body): nat {
    match b
    case Done => 0
    case Result(_) => 0
    case Let(_, _, rest) => 1 + LetCount(rest)
    case Then(_, rest) => LetCount(rest)
  }

  /** The innermost visible declaration of `name`: the last one. */
  function LastIndex(names: seq<string>, name: string): (i: int)
    ensures -1 <= i < |names|
    ensures i >= 0 ==> names[i] == name
    ensures forall j :: i < j < |names| ==> names[j] != name
  {
    if names == [] then -1
    else if names[|names| - 1] == name then |names| - 1
    else LastIndex(names[..|names| - 1], name)
  }
}

/** The meaning of programs, given directly on the trees. `fuel` bounds the loop
    iterations and calls nested along any path; `OutOfFuel` says it ran out. */
module Evaluator {
  import opened Bytecode
  import opened Values
  import opened Syntax

  const MAX_FRAMES := 1024

  datatype World = World(globals: map<string, Value>, serial: nat)

  datatype Outcome =
    | Normal(value: Value, locals: seq<Value>, world: World)
    | Broken(value: Value, locals: seq<Value>, world: World)
    | Continued(locals: seq<Value>, world: World)
    | Returned(value: Value, world: World)
    | Failed(error: Error)
    | OutOfFuel
  {
    predicate Keeps(n: nat) {
      (Normal? ==> |locals| == n) && Extends(n)
    }

    predicate Extends(n: nat) {
      Normal? || Broken? || Continued? ==> n <= |locals|
    }

    /** Leaving a scope that was entered with `n` locals. */
    function Leave(n: nat): Outcome
      requires Extends(n)
    {
      if Normal? then Normal(value, locals[..n], world) else this
    }
  }

  datatype ArgsOutcome =
    | AllArgs(values: seq<Value>, locals: seq<Value>, world: World)
    | Abrupt(outcome: Outcome)

  /** What stays fixed during the run of one function body. */
  datatype Context = Context(fl: FloatOps, defs: seq<FnDef>, frames: nat)

  function EvalVariable(name: string, names: seq<string>, vals: seq<Value>, w: World): Outcome
    requires |names| == |vals|
  {
    var i := LastIndex(names, name);
    if i >= 0 then Normal(vals[i], vals, w)
    else if name in w.globals then Normal(w.globals[name], vals, w)
    else Failed(UndefinedVariable)
  }

  function StoreVariable(name: string, v: Value, names: seq<string>, vals: seq<Value>, w: World): Outcome
    requires |names| == |vals|
  {
    var i := LastIndex(names, name);
    if i >= 0 then Normal(v, vals[i := v], w)
    else if name in w.globals then Normal(v, vals, w.(globals := w.globals[name := v]))
    else Failed(UndefinedVariable)
  }

  function FromResult(r: Result<Value>, vals: seq<Value>, w: World): Outcome {
    match r case Ok(v) => Normal(v, vals, w) case Err(e) => Failed(e)
  }

  function EvalExpr(c: Context, fuel: nat, e: Expr, names: seq<string>, vals: seq<Value>, w: World): (o: Outcome)
    requires |names| == |vals|
    ensures o.Keeps(|vals|)
    decreases fuel, e
  {
    match e
    case Literal(v) => Normal(v, vals, w)
    case Variable(name) => EvalVariable(name, names, vals, w)
    case Assign(name, rhs) =>
      var r := EvalExpr(c, fuel, rhs, names, vals, w);
      if !r.Normal? then r else StoreVariable(name, r.value, names, r.locals, r.world)
    case Unary(op, arg) =>
      var r := EvalExpr(c, fuel, arg, names, vals, w);
      if !r.Normal? then r else FromResult(ApplyUnary(c.fl, op, r.value), r.locals, r.world)
    case Binary(op, left, right) =>
      var l := EvalExpr(c, fuel, left, names, vals, w);
      if !l.Normal? then l else
      var r := EvalExpr(c, fuel, right, names, l.locals, l.world);
      if !r.Normal? then r else FromResult(ApplyBinary(c.fl, op, l.value, r.value), r.locals, r.world)
    case And(left, right) =>
      var l := EvalExpr(c, fuel, left, names, vals, w);
      if !l.Normal? || l.value.IsFalsey() then l else EvalExpr(c, fuel, right, names, l.locals, l.world)
    case Or(left, right) =>
      var l := EvalExpr(c, fuel, left, names, vals, w);
      if !l.Normal? || !l.value.IsFalsey() then l else EvalExpr(c, fuel, right, names, l.locals, l.world)
    case If(cond, thenBody, elseExpr) =>
      var l := EvalExpr(c, fuel, cond, names, vals, w);
      if !l.Normal? then l
      else if l.value.IsFalsey() then EvalExpr(c, fuel, elseExpr, names, l.locals, l.world)
      else EvalBody(c, fuel, thenBody, names, l.locals, l.world).Leave(|vals|)
    case Block(body) => EvalBody(c, fuel, body, names, vals, w).Leave(|vals|)
    case Loop(body) =>
      var b := EvalBody(c, fuel, body, names, vals, w);
      if b.Broken? then Normal(b.value, b.locals[..|vals|], b.world)
      else if b.Normal? || b.Continued? then
        if fuel == 0 then OutOfFuel else EvalExpr(c, fuel - 1, e, names, b.locals[..|vals|], b.world)
      else b
    case Call(callee, args) =>
      var f := EvalExpr(c, fuel, callee, names, vals, w);
      if !f.Normal? then f else
      var a := EvalArgs(c, fuel, args, names, f.locals, f.world);
      if a.Abrupt? then a.outcome
      else EvalCall(c, fuel, e, f.value, a.values, a.locals, a.world)
    case Fn(def) => Normal(Closure(def, w.serial), vals, w.(serial := w.serial + 1))
  }

  /** Calls `f` once the operands of the call expression `e` are known. */
  function EvalCall(c: Context, fuel: nat, e: Expr, f: Value, args: seq<Value>, vals: seq<Value>, w: World): (o: Outcome)
    ensures o.Keeps(|vals|)
    decreases fuel, e, 0
  {
    if !f.Closure? || f.def >= |c.defs| then Failed(NotCallable)
    else
      var def := c.defs[f.def];
      if |args| != |def.params| then Failed(WrongArgumentCount)
      else if c.frames >= MAX_FRAMES then Failed(StackOverflow)
      else if fuel == 0 then OutOfFuel
      else
        AfterCall(EvalBody(c.(frames := c.frames + 1), fuel - 1, def.body, [""] + def.params, [f] + args, w), vals)
  }

  /** What a finished function body means to its caller. Loops never let `break`
      and `continue` through to here in compiled code. */
  function AfterCall(o: Outcome, vals: seq<Value>): (r: Outcome)
    ensures r.Keeps(|vals|)
  {
    match o
    case Normal(v, _, w) => Normal(v, vals, w)
    case Returned(v, w) => Normal(v, vals, w)
    case Broken(_, _, _) => Failed(NotCallable)
    case Continued(_, _) => Failed(NotCallable)
    case _ => o
  }

  function EvalArgs(c: Context, fuel: nat, args: Args, names: seq<string>, vals: seq<Value>, w: World): (o: ArgsOutcome)
    requires |names| == |vals|
    ensures o.AllArgs? ==> |o.locals| == |vals| && |o.values| == ArgCount(args)
    ensures o.Abrupt? ==> !o.outcome.Normal? && o.outcome.Extends(|vals|)
    decreases fuel, args
  {
    match args
    case NoArgs => AllArgs([], vals, w)
    case Arg(first, rest) =>
      var f := EvalExpr(c, fuel, first, names, vals, w);
      if !f.Normal? then Abrupt(f) else
      match EvalArgs(c, fuel, rest, names, f.locals, f.world)
      case AllArgs(vs, vals', w') => AllArgs([f.value] + vs, vals', w')
      case Abrupt(o) => Abrupt(o)
  }

  function EvalBody(c: Context, fuel: nat, b: Body, names: seq<string>, vals: seq<Value>, w: World): (o: Outcome)
    requires |names| == |vals|
    ensures o.Extends(|vals|)
    ensures o.Normal? ==> |o.locals| == |vals| + LetCount(b)
    decreases fuel, b
  {
    match b
    case Done => Normal(Nil, vals, w)
    case Result(e) => EvalExpr(c, fuel, e, names, vals, w)
    case Let(name, init, rest) =>
      var i := EvalExpr(c, fuel, init, names, vals, w);
      if !i.Normal? then i
      else EvalBody(c, fuel, rest, names + [name], i.locals + [i.value], i.world)
    case Then(s, rest) =>
      var d := EvalStmt(c, fuel, s, names, vals, w);
      if !d.Normal? then d else EvalBody(c, fuel, rest, names, d.locals, d.world)
  }

  function EvalStmt(c: Context, fuel: nat, s: Stmt, names: seq<string>, vals: seq<Value>, w: World): (o: Outcome)
    requires |names| == |vals|
    ensures o.Keeps(|vals|)
    decreases fuel, s
  {
    match s
    case Discard(e) => EvalExpr(c, fuel, e, names, vals, w)
    case While(cond, body) =>
      var l := EvalExpr(c, fuel, cond, names, vals, w);
      if l.Normal? && l.value.IsFalsey() then Normal(Nil, l.locals, l.world) else
      var b := if l.Normal? then EvalBody(c, fuel, body, names, l.locals, l.world) else l;
      if b.Broken? then Normal(Nil, b.locals[..|vals|], b.world)
      else if b.Normal? || b.Continued? then
        if fuel == 0 then OutOfFuel else EvalStmt(c, fuel - 1, s, names, b.locals[..|vals|], b.world)
      else b
    case Break(value) =>
      if value.None? then Broken(Nil, vals, w) else
      var r := EvalExpr(c, fuel, value.value, names, vals, w);
      if r.Normal? then Broken(r.value, r.locals, r.world) else r
    case Continue => Continued(vals, w)
    case Return(e) =>
      var r := EvalExpr(c, fuel, e, names, vals, w);
      if r.Normal? then Returned(r.value, r.world) else r
  }

  datatype ScriptOutcome = Completed(world: World) | Crashed(error: Error) | Unfinished

  /** `vals` is the reserved first local of the script. */
  function EvalScript(c: Context, fuel: nat, p: Script, vals: seq<Value>, w: World): ScriptOutcome
    requires |vals| == 1
    decreases p
  {
    match p
    case End => Completed(w)
    case Define(name, init, next) =>
      var o := EvalExpr(c, fuel, init, [""], vals, w);
      if o.Normal? then EvalScript(c, fuel, next, o.locals, o.world.(globals := o.world.globals[name := o.value]))
      else if o.Failed? then Crashed(o.error)
      else Unfinished
    case Run(s, next) =>
      var o := EvalStmt(c, fuel, s, [""], vals, w);
      if o.Normal? then EvalScript(c, fuel, next, o.locals, o.world)
      else if o.Failed? then Crashed(o.error)
      else Unfinished
  }
}
