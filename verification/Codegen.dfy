/** The code emitted for each tree, as a function: what the emitting methods of the
    parser (module Emitter) are proved to write. */
module Codegen {
  import opened Bytecode
  import opened Values
  import opened Syntax

  datatype LoopContext =
    | NoLoop
    | InLoop(start: nat, locals: nat, isExpr: bool)

  /** `globals` maps names to indices; `scopeStart` is the number of locals declared
      outside the innermost scope. */
  datatype Ctx = Ctx(globals: map<string, nat>, inFunction: bool, scopeStart: nat, loop: LoopContext)

  /** Emitted instructions, the constant table afterwards, whether no error was reported,
      and whether no closure with a long constant index stands inside a loop: the walk
      that patches a finished loop would misread one. */
  datatype Gen = Gen(code: seq<Instr>, consts: seq<Value>, ok: bool, aligned: bool)

  function One(op: OpCode): seq<Instr> { [Plain(op, 0)] }

  /** Position of the first equal constant, or -1. */
  function IndexOf(k: seq<Value>, v: Value): (i: int)
    ensures -1 <= i < |k|
    ensures i >= 0 ==> k[i] == v
  {
    if k == [] then -1
    else if k[0] == v then 0
    else var r := IndexOf(k[1..], v); if r < 0 then -1 else r + 1
  }

  function AddConstant(k: seq<Value>, v: Value): (r: (nat, seq<Value>))
    ensures k <= r.1 && r.0 < |r.1| && r.1[r.0] == v
  {
    var i := IndexOf(k, v);
    if i >= 0 then (i, k) else (|k|, k + [v])
  }

  function GenConstant(k: seq<Value>, v: Value): (g: Gen)
    ensures k <= g.consts
  {
    var (i, k') := AddConstant(k, v);
    Gen([VarLength(CONSTANT, i)], k', i < MAX_INDEX, true)
  }

  function GenLiteral(k: seq<Value>, v: Value): (g: Gen)
    ensures k <= g.consts
  {
    if v == Nil then Gen(One(NIL), k, true, true)
    else if v == Bool(true) then Gen(One(TRUE), k, true, true)
    else if v == Bool(false) then Gen(One(FALSE), k, true, true)
    else GenConstant(k, v)
  }

  function GenVariable(localOp: OpCode, globalOp: OpCode, name: string, names: seq<string>, k: seq<Value>, c: Ctx): Gen {
    var i := LastIndex(names, name);
    if i >= 0 then Gen([VarLength(localOp, i)], k, i < MAX_INDEX, true)
    else if name in c.globals then Gen([VarLength(globalOp, c.globals[name])], k, c.globals[name] < MAX_INDEX, true)
    else Gen([], k, false, true)
  }

  function BinaryOpcode(op: BinaryOp): OpCode {
    match op
    case Eq => EQUAL case Ne => NOT_EQUAL
    case Gt => GREATER case Ge => GREATER_EQUAL
    case Lt => LESS case Le => LESS_EQUAL
    case Add => ADD case Sub => SUBSTRACT
    case Mul => MULTIPLY case Div => DIVIDE
  }

  function UnaryOpcode(op: UnaryOp): OpCode {
    match op case Not => NOT case Neg => NEGATE
  }

  function EndScope(n: nat): seq<Instr> {
    if n == 0 then [] else [VarLength(END_SCOPE, n)]
  }

  function Pops(n: nat): seq<Instr> {
    if n == 0 then [] else One(POP) + Pops(n - 1)
  }

  /** Replaces every placeholder jump by a jump to `end`. */
  function Patch(ins: seq<Instr>, pos: nat, end: nat): (r: seq<Instr>)
    ensures |r| == |ins|
  {
    if ins == [] then [] else
    [if ins[0] == BreakHole then Plain(JUMP, JumpDistance(pos, end)) else ins[0]]
    + Patch(ins[1..], pos + |Encode(ins[0])|, end)
  }

  function JumpDistance(pos: nat, end: nat): nat {
    if end >= pos + 3 then end - pos - 3 else 0
  }

  function GenExpr(e: Expr, names: seq<string>, k: seq<Value>, c: Ctx, pos: nat): (g: Gen)
    ensures k <= g.consts
    decreases e
  {
    match e
    case Literal(v) => GenLiteral(k, v)
    case Variable(name) => GenVariable(GET_LOCAL, GET_GLOBAL, name, names, k, c)
    case Assign(name, rhs) =>
      var r := GenExpr(rhs, names, k, c, pos);
      var s := GenVariable(SET_LOCAL, SET_GLOBAL, name, names, r.consts, c);
      Gen(r.code + s.code, s.consts, r.ok && s.ok, r.aligned && s.aligned)
    case Unary(op, arg) =>
      var r := GenExpr(arg, names, k, c, pos);
      Gen(r.code + One(UnaryOpcode(op)), r.consts, r.ok, r.aligned)
    case Binary(op, left, right) =>
      var l := GenExpr(left, names, k, c, pos);
      var r := GenExpr(right, names, l.consts, c, pos + Size(l.code));
      Gen(l.code + r.code + One(BinaryOpcode(op)), r.consts, l.ok && r.ok, l.aligned && r.aligned)
    case And(left, right) =>
      var l := GenExpr(left, names, k, c, pos);
      var r := GenExpr(right, names, l.consts, c, pos + Size(l.code) + 4);
      var d := 1 + Size(r.code);
      Gen(l.code + [Plain(JUMP_IF_FALSE, d)] + One(POP) + r.code,
          r.consts, l.ok && r.ok && d <= MAX_JUMP, l.aligned && r.aligned)
    case Or(left, right) =>
      var l := GenExpr(left, names, k, c, pos);
      var r := GenExpr(right, names, l.consts, c, pos + Size(l.code) + 7);
      var d := 1 + Size(r.code);
      Gen(l.code + [Plain(JUMP_IF_FALSE, 3)] + [Plain(JUMP, d)] + One(POP) + r.code,
          r.consts, l.ok && r.ok && d <= MAX_JUMP, l.aligned && r.aligned)
    case If(cond, thenBody, elseExpr) =>
      var l := GenExpr(cond, names, k, c, pos);
      var t := GenBlock(thenBody, names, l.consts, c, pos + Size(l.code) + 4);
      var dt := 1 + Size(t.code) + 3;
      var f := GenExpr(elseExpr, names, t.consts, c, pos + Size(l.code) + 3 + dt + 1);
      var df := 1 + Size(f.code);
      Gen(l.code + [Plain(JUMP_IF_FALSE, dt)] + One(POP) + t.code + [Plain(JUMP, df)] + One(POP) + f.code,
          f.consts, l.ok && t.ok && f.ok && dt <= MAX_JUMP && df <= MAX_JUMP,
          l.aligned && t.aligned && f.aligned)
    case Block(body) => GenBlock(body, names, k, c, pos)
    case Loop(body) =>
      var b := GenBlock(body, names, k, c.(loop := InLoop(pos, |names|, true)), pos);
      var d := Size(b.code) + 1 + 3;
      Gen(Patch(b.code + One(POP) + [Plain(LOOP, d)], pos, pos + d),
          b.consts, b.ok && d <= MAX_JUMP, b.aligned)
    case Call(callee, args) =>
      var f := GenExpr(callee, names, k, c, pos);
      var a := GenArgs(args, names, f.consts, c, pos + Size(f.code));
      Gen(f.code + a.code + [Plain(CALL, ArgCount(args))],
          a.consts, f.ok && a.ok && ArgCount(args) <= MAX_ARGUMENTS, f.aligned && a.aligned)
    case Fn(def) =>
      var (i, k') := AddConstant(k, Function(def));
      Gen([MakeClosure(i, [])], k', i < MAX_INDEX, c.loop.NoLoop? || i < 256)
  }

  function GenArgs(args: Args, names: seq<string>, k: seq<Value>, c: Ctx, pos: nat): (g: Gen)
    ensures k <= g.consts
    decreases args
  {
    match args
    case NoArgs => Gen([], k, true, true)
    case Arg(first, rest) =>
      var f := GenExpr(first, names, k, c, pos);
      var r := GenArgs(rest, names, f.consts, c, pos + Size(f.code));
      Gen(f.code + r.code, r.consts, f.ok && r.ok, f.aligned && r.aligned)
  }

  /** A block with its own scope. */
  function GenBlock(b: Body, names: seq<string>, k: seq<Value>, c: Ctx, pos: nat): (g: Gen)
    ensures k <= g.consts
    decreases b, 1
  {
    var g := GenBody(b, names, k, c.(scopeStart := |names|), pos);
    Gen(g.code + EndScope(LetCount(b)), g.consts, g.ok && LetCount(b) < MAX_INDEX, g.aligned)
  }

  function GenBody(b: Body, names: seq<string>, k: seq<Value>, c: Ctx, pos: nat): (g: Gen)
    ensures k <= g.consts
    decreases b, 0
  {
    match b
    case Done => Gen(One(NIL), k, true, true)
    case Result(e) => GenExpr(e, names, k, c, pos)
    case Let(name, init, rest) =>
      var i := GenExpr(init, names, k, c, pos);
      var r := GenBody(rest, names + [name], i.consts, c, pos + Size(i.code));
      Gen(i.code + r.code, r.consts,
          i.ok && r.ok && (c.scopeStart <= |names| ==> name !in names[c.scopeStart..]) && |names| < MAX_INDEX,
          i.aligned && r.aligned)
    case Then(s, rest) =>
      var d := GenStmt(s, names, k, c, pos);
      var r := GenBody(rest, names, d.consts, c, pos + Size(d.code));
      Gen(d.code + r.code, r.consts, d.ok && r.ok, d.aligned && r.aligned)
  }

  function GenStmt(s: Stmt, names: seq<string>, k: seq<Value>, c: Ctx, pos: nat): (g: Gen)
    ensures k <= g.consts
    decreases s
  {
    match s
    case Discard(e) =>
      var r := GenExpr(e, names, k, c, pos);
      Gen(r.code + One(POP), r.consts, r.ok, r.aligned)
    case While(cond, body) =>
      var c' := c.(loop := InLoop(pos, |names|, false));
      var l := GenExpr(cond, names, k, c', pos);
      var b := GenBlock(body, names, l.consts, c', pos + Size(l.code) + 4);
      var dx := 1 + Size(b.code) + 1 + 3;
      var d := Size(l.code) + 3 + dx;
      Gen(Patch(l.code + [Plain(JUMP_IF_FALSE, dx)] + One(POP) + b.code + One(POP)
                + [Plain(LOOP, d)] + One(POP), pos, pos + d + 1),
          b.consts, l.ok && b.ok && d <= MAX_JUMP, l.aligned && b.aligned)
    case Break(value) =>
      if c.loop.NoLoop? || c.loop.locals > |names| then Gen([], k, false, true) else
      var n := |names| - c.loop.locals;
      if c.loop.isExpr then
        var r := if value.None? then GenLiteral(k, Nil) else GenExpr(value.value, names, k, c, pos);
        Gen(r.code + EndScope(n) + [BreakHole], r.consts, r.ok && n < MAX_INDEX, r.aligned)
      else
        Gen(Pops(n) + [BreakHole], k, value.None?, true)
    case Continue =>
      if c.loop.NoLoop? || c.loop.locals > |names| || c.loop.start > pos then Gen([], k, false, true) else
      var n := |names| - c.loop.locals;
      var d := pos + n + 3 - c.loop.start;
      Gen(Pops(n) + [Plain(LOOP, d)], k, d <= MAX_JUMP, true)
    case Return(e) =>
      var r := GenExpr(e, names, k, c, pos);
      Gen(r.code + One(RETURN), r.consts, r.ok && c.inFunction, r.aligned)
  }

  /** A function body: parameters share the scope of the body, and falling off its
      end returns the result on top of the stack. */
  function GenFunction(def: FnDef, globals: map<string, nat>): Gen {
    var names := [""] + def.params;
    var g := GenBody(def.body, names, [], Ctx(globals, true, 1, NoLoop), 0);
    Gen(g.code + One(RETURN), g.consts,
        g.ok && |def.params| <= MAX_ARGUMENTS && (forall i, j :: 0 <= i < j < |def.params| ==> def.params[i] != def.params[j]),
        g.aligned)
  }

  function GenScript(p: Script, k: seq<Value>, globals: map<string, nat>, pos: nat): (g: Gen)
    ensures k <= g.consts
    decreases p
  {
    match p
    case End => Gen(One(NIL) + One(RETURN), k, true, true)
    case Define(name, init, next) =>
      var i := GenExpr(init, [""], k, Ctx(globals, false, 0, NoLoop), pos);
      if name !in globals then Gen([], k, false, true) else
      var def := [VarLength(DEFINE_GLOBAL, globals[name])];
      var r := GenScript(next, i.consts, globals, pos + Size(i.code) + Size(def));
      Gen(i.code + def + r.code, r.consts, i.ok && r.ok && globals[name] < MAX_INDEX, i.aligned && r.aligned)
    case Run(s, next) =>
      var d := GenStmt(s, [""], k, Ctx(globals, false, 0, NoLoop), pos);
      var r := GenScript(next, d.consts, globals, pos + Size(d.code));
      Gen(d.code + r.code, r.consts, d.ok && r.ok, d.aligned && r.aligned)
  }

  // ----- what a tree may contain where operands are pending -----

  /** No local is declared in the tree itself (function bodies have their own frame). */
  predicate NoLet(e: Expr) {
    match e
    case Literal(_) => true
    case Variable(_) => true
    case Assign(_, rhs) => NoLet(rhs)
    case Unary(_, arg) => NoLet(arg)
    case Binary(_, l, r) => NoLet(l) && NoLet(r)
    case And(l, r) => NoLet(l) && NoLet(r)
    case Or(l, r) => NoLet(l) && NoLet(r)
    case If(cond, t, f) => NoLet(cond) && NoLetBody(t) && NoLet(f)
    case Block(b) => NoLetBody(b)
    case Loop(b) => NoLetBody(b)
    case Call(f, args) => NoLet(f) && NoLetArgs(args)
    case Fn(_) => true
  }

  predicate NoLetArgs(args: Args) {
    args.Arg? ==> NoLet(args.first) && NoLetArgs(args.rest)
  }

  predicate NoLetBody(b: Body) {
    match b
    case Done => true
    case Result(e) => NoLet(e)
    case Let(_, _, _) => false
    case Then(s, rest) => NoLetStmt(s) && NoLetBody(rest)
  }

  predicate NoLetStmt(s: Stmt) {
    match s
    case Discard(e) => NoLet(e)
    case While(cond, body) => NoLet(cond) && NoLetBody(body)
    case Break(value) => value.Some? ==> NoLet(value.value)
    case Continue => true
    case Return(e) => NoLet(e)
  }

  /** No `break` or `continue` leaves the tree. */
  predicate NoExit(e: Expr) {
    match e
    case Literal(_) => true
    case Variable(_) => true
    case Assign(_, rhs) => NoExit(rhs)
    case Unary(_, arg) => NoExit(arg)
    case Binary(_, l, r) => NoExit(l) && NoExit(r)
    case And(l, r) => NoExit(l) && NoExit(r)
    case Or(l, r) => NoExit(l) && NoExit(r)
    case If(cond, t, f) => NoExit(cond) && NoExitBody(t) && NoExit(f)
    case Block(b) => NoExitBody(b)
    case Loop(_) => true
    case Call(f, args) => NoExit(f) && NoExitArgs(args)
    case Fn(_) => true
  }

  predicate NoExitArgs(args: Args) {
    args.Arg? ==> NoExit(args.first) && NoExitArgs(args.rest)
  }

  predicate NoExitBody(b: Body) {
    match b
    case Done => true
    case Result(e) => NoExit(e)
    case Let(_, init, rest) => NoExit(init) && NoExitBody(rest)
    case Then(s, rest) => NoExitStmt(s) && NoExitBody(rest)
  }

  predicate NoExitStmt(s: Stmt) {
    match s
    case Discard(e) => NoExit(e)
    case While(_, _) => true
    case Break(_) => false
    case Continue => false
    case Return(e) => NoExit(e)
  }

  /** Right operands and call arguments, which are evaluated above pending operands,
      declare no local and contain no `break` or `continue` out of themselves. */
  predicate Placed(e: Expr) {
    match e
    case Literal(_) => true
    case Variable(_) => true
    case Assign(_, rhs) => Placed(rhs)
    case Unary(_, arg) => Placed(arg)
    case Binary(_, l, r) => Placed(l) && Placed(r) && NoLet(r) && NoExit(r)
    case And(l, r) => Placed(l) && Placed(r)
    case Or(l, r) => Placed(l) && Placed(r)
    case If(cond, t, f) => Placed(cond) && PlacedBody(t) && Placed(f)
    case Block(b) => PlacedBody(b)
    case Loop(b) => PlacedBody(b)
    case Call(f, args) => Placed(f) && PlacedArgs(args) && NoLetArgs(args) && NoExitArgs(args)
    case Fn(_) => true
  }

  predicate PlacedArgs(args: Args) {
    args.Arg? ==> Placed(args.first) && PlacedArgs(args.rest)
  }

  predicate PlacedBody(b: Body) {
    match b
    case Done => true
    case Result(e) => Placed(e)
    case Let(_, init, rest) => Placed(init) && PlacedBody(rest)
    case Then(s, rest) => PlacedStmt(s) && PlacedBody(rest)
  }

  predicate PlacedStmt(s: Stmt) {
    match s
    case Discard(e) => Placed(e)
    case While(cond, body) => Placed(cond) && PlacedBody(body)
    case Break(value) => value.Some? ==> Placed(value.value)
    case Continue => true
    case Return(e) => Placed(e)
  }

  predicate PlacedScript(p: Script) {
    match p
    case End => true
    case Define(_, init, next) => Placed(init) && PlacedScript(next)
    case Run(s, next) => PlacedStmt(s) && PlacedScript(next)
  }
}
