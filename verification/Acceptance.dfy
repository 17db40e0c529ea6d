/** Which programs the compiler accepts, told from their trees alone: names, scopes, loops and
    functions, and a size that keeps jumps and indices in range. */
module Acceptance {
  import opened Bytecode
  import opened Values
  import opened Syntax
  import opened Codegen
  import opened CodeFacts

  // ----- legal programs -----

  datatype Surrounding = NotInLoop | InLoopExpr | InWhile

  /** The visible locals, of which `since` are declared outside the innermost scope, the
      globals, and what stands around. */
  datatype Scope = Scope(names: seq<string>, since: nat, inFunction: bool, loop: Surrounding, globals: set<string>)
  {
    predicate Sees(name: string) { name in names || name in globals }

    predicate Declares(name: string) { since <= |names| && name in names[since..] }
  }

  /** Every name is a visible local or a global, and no call has more than 255 arguments. */
  predicate Legal(e: Expr, s: Scope)
    decreases e
  {
    match e
    case Literal(_) => true
    case Variable(name) => s.Sees(name)
    case Assign(name, rhs) => Legal(rhs, s) && s.Sees(name)
    case Unary(_, arg) => Legal(arg, s)
    case Binary(_, l, r) => Legal(l, s) && Legal(r, s)
    case And(l, r) => Legal(l, s) && Legal(r, s)
    case Or(l, r) => Legal(l, s) && Legal(r, s)
    case If(cond, t, f) => Legal(cond, s) && LegalBlock(t, s) && Legal(f, s)
    case Block(b) => LegalBlock(b, s)
    case Loop(b) => LegalBlock(b, s.(loop := InLoopExpr))
    case Call(f, args) => Legal(f, s) && LegalArgs(args, s) && ArgCount(args) <= 255
    case Fn(_) => true
  }

  predicate LegalArgs(args: Args, s: Scope)
    decreases args
  {
    args.Arg? ==> Legal(args.first, s) && LegalArgs(args.rest, s)
  }

  predicate LegalBlock(b: Body, s: Scope)
    decreases b, 1
  {
    LegalBody(b, s.(since := |s.names|))
  }

  /** No name is declared twice in a scope. */
  predicate LegalBody(b: Body, s: Scope)
    decreases b, 0
  {
    match b
    case Done => true
    case Result(e) => Legal(e, s)
    case Let(name, init, rest) => Legal(init, s) && !s.Declares(name) && LegalBody(rest, s.(names := s.names + [name]))
    case Then(st, rest) => LegalStmt(st, s) && LegalBody(rest, s)
  }

  /** `break` and `continue` stand in loops, a break with a value in a `loop`, and `return` in
      a function. */
  predicate LegalStmt(st: Stmt, s: Scope)
    decreases st
  {
    match st
    case Discard(e) => Legal(e, s)
    case While(cond, body) => Legal(cond, s.(loop := InWhile)) && LegalBlock(body, s.(loop := InWhile))
    case Break(value) => !s.loop.NotInLoop? && (value.Some? ==> s.loop.InLoopExpr? && Legal(value.value, s))
    case Continue => !s.loop.NotInLoop?
    case Return(e) => s.inFunction && Legal(e, s)
  }

  /** At most 255 parameters, all different; they share the scope of the body. */
  predicate LegalFunction(def: FnDef, globals: set<string>) {
    && |def.params| <= 255
    && (forall i, j :: 0 <= i < j < |def.params| ==> def.params[i] != def.params[j])
    && LegalBody(def.body, Scope([""] + def.params, 1, true, NotInLoop, globals))
  }

  predicate LegalScript(p: Script, globals: set<string>)
    decreases p
  {
    var s := Scope([""], 0, false, NotInLoop, globals);
    match p
    case End => true
    case Define(name, init, next) => name in globals && Legal(init, s) && LegalScript(next, globals)
    case Run(st, next) => LegalStmt(st, s) && LegalScript(next, globals)
  }

  // ----- sizes -----

  /** How many bytes the code of a tree has at most; `n` locals are declared since the start
      of the loop around it. */
  function Bytes(e: Expr, n: nat): (b: nat)
    ensures b > 0
    decreases e
  {
    match e
    case Literal(_) => 4
    case Variable(_) => 4
    case Assign(_, rhs) => Bytes(rhs, n) + 4
    case Unary(_, arg) => Bytes(arg, n) + 1
    case Binary(_, l, r) => Bytes(l, n) + Bytes(r, n) + 1
    case And(l, r) => Bytes(l, n) + 4 + Bytes(r, n)
    case Or(l, r) => Bytes(l, n) + 7 + Bytes(r, n)
    case If(cond, t, f) => Bytes(cond, n) + 4 + BlockBytes(t, n) + 4 + Bytes(f, n)
    case Block(b) => BlockBytes(b, n)
    case Loop(b) => BlockBytes(b, 0) + 4
    case Call(f, args) => Bytes(f, n) + ArgsBytes(args, n) + 2
    case Fn(_) => 4
  }

  function ArgsBytes(args: Args, n: nat): nat
    decreases args
  {
    if args.NoArgs? then 0 else Bytes(args.first, n) + ArgsBytes(args.rest, n)
  }

  function BlockBytes(b: Body, n: nat): (r: nat)
    ensures r > 0
    decreases b, 1
  {
    BodyBytes(b, n) + 4
  }

  function BodyBytes(b: Body, n: nat): nat
    decreases b, 0
  {
    match b
    case Done => 1
    case Result(e) => Bytes(e, n)
    case Let(_, init, rest) => Bytes(init, n) + BodyBytes(rest, n + 1)
    case Then(s, rest) => StmtBytes(s, n) + BodyBytes(rest, n)
  }

  function StmtBytes(s: Stmt, n: nat): nat
    decreases s
  {
    match s
    case Discard(e) => Bytes(e, n) + 1
    case While(cond, body) => Bytes(cond, 0) + 4 + BlockBytes(body, 0) + 5
    case Break(value) => (if value.None? then 1 else Bytes(value.value, n)) + n + 7
    case Continue => n + 3
    case Return(e) => Bytes(e, n) + 1
  }

  function ScriptBytes(p: Script): nat
    decreases p
  {
    match p
    case End => 2
    case Define(_, init, next) => Bytes(init, 0) + 4 + ScriptBytes(next)
    case Run(s, next) => StmtBytes(s, 0) + ScriptBytes(next)
  }

  /** Every branch and every loop is at most 65535 bytes long. */
  predicate Fits(e: Expr, n: nat)
    decreases e
  {
    match e
    case Literal(_) => true
    case Variable(_) => true
    case Assign(_, rhs) => Fits(rhs, n)
    case Unary(_, arg) => Fits(arg, n)
    case Binary(_, l, r) => Fits(l, n) && Fits(r, n)
    case And(l, r) => Fits(l, n) && Fits(r, n) && Bytes(r, n) + 1 <= 65535
    case Or(l, r) => Fits(l, n) && Fits(r, n) && Bytes(r, n) + 1 <= 65535
    case If(cond, t, f) => Fits(cond, n) && FitsBody(t, n) && Fits(f, n) && BlockBytes(t, n) + 4 <= 65535 && Bytes(f, n) + 1 <= 65535
    case Block(b) => FitsBody(b, n)
    case Loop(b) => FitsBody(b, 0) && BlockBytes(b, 0) + 4 <= 65535
    case Call(f, args) => Fits(f, n) && FitsArgs(args, n)
    case Fn(_) => true
  }

  predicate FitsArgs(args: Args, n: nat)
    decreases args
  {
    args.Arg? ==> Fits(args.first, n) && FitsArgs(args.rest, n)
  }

  predicate FitsBody(b: Body, n: nat)
    decreases b
  {
    match b
    case Done => true
    case Result(e) => Fits(e, n)
    case Let(_, init, rest) => Fits(init, n) && FitsBody(rest, n + 1)
    case Then(s, rest) => FitsStmt(s, n) && FitsBody(rest, n)
  }

  predicate FitsStmt(s: Stmt, n: nat)
    decreases s
  {
    match s
    case Discard(e) => Fits(e, n)
    case While(cond, body) => Fits(cond, 0) && FitsBody(body, 0) && StmtBytes(s, 0) <= 65535
    case Break(value) => value.Some? ==> Fits(value.value, n)
    case Continue => true
    case Return(e) => Fits(e, n)
  }

  /** Indices stay below 2^24: of the names and of the constants, which the bytes bound. */
  predicate FitsFunction(def: FnDef) {
    FitsBody(def.body, 0) && BodyBytes(def.body, 0) + 256 < 0x100_0000
  }

  predicate FitsScript(p: Script)
    decreases p
  {
    match p
    case End => true
    case Define(_, init, next) => Fits(init, 0) && FitsScript(next)
    case Run(s, next) => FitsStmt(s, 0) && FitsScript(next)
  }

  // ----- what the code function answers -----

  function ScopeOf(names: seq<string>, c: Ctx): Scope {
    Scope(names, c.scopeStart, c.inFunction,
          if c.loop.NoLoop? then NotInLoop else if c.loop.isExpr then InLoopExpr else InWhile, c.globals.Keys)
  }

  /** Where code is emitted: after the start of the loop around it. */
  ghost predicate Stands(names: seq<string>, c: Ctx, pos: nat, n: nat) {
    c.scopeStart <= |names| && (c.loop.InLoop? ==> c.loop.locals + n == |names| && c.loop.start <= pos)
  }

  ghost predicate GlobalsFit(globals: map<string, nat>) {
    forall name <- globals :: globals[name] < 0x100_0000
  }

  /** There are indices for `b` more bytes, and the loop's start is in reach from their end. */
  ghost predicate Room(names: nat, k: nat, c: Ctx, pos: nat, b: nat) {
    && names + b < 0x100_0000 && k + b < 0x100_0000 && GlobalsFit(c.globals)
    && (c.loop.InLoop? ==> pos + b <= c.loop.start + 65535)
  }

  /** The code is no longer than said; it is refused if the tree is not legal, and accepted if
      it is legal and there is room. */
  ghost predicate Answers(g: Gen, k: nat, b: nat, legal: bool, roomy: bool) {
    Size(g.code) <= b && |g.consts| <= k + b && (g.ok ==> legal) && (legal && roomy ==> g.ok)
  }

  // ----- sizes of instructions -----

  lemma VarLengthSize(op: OpCode, i: nat)
    ensures Size([VarLength(op, i)]) <= 4
  {
    hide Size;
    SizeOfPlain(VarLength(op, i).op, i);
    assert OperandWidth(VarLength(op, i).op) <= 3;
  }

  lemma ClosureSize(i: nat)
    ensures Size([MakeClosure(i, [])]) <= 4
  {
    EncodeOne(MakeClosure(i, []));
    hide OpByte;
    assert EncodeCaptures([]) == [];
    assert OperandWidth(VarLength(CLOSURE, i).op) <= 3;
  }

  lemma {:induction false} PopsBytes(n: nat)
    ensures Size(Pops(n)) == n
    decreases n
  {
    hide Size;
    if n == 0 {
      EmptySize();
    } else {
      PopsBytes(n - 1);
      OneSize(POP);
      SizeAppend(One(POP), Pops(n - 1));
    }
  }

  lemma EndScopeSize(n: nat)
    ensures Size(EndScope(n)) <= 4
  {
    hide Size;
    EmptySize();
    VarLengthSize(END_SCOPE, n);
  }

  lemma HoleBytes()
    ensures Size([BreakHole]) == 3
  {
    hide EncodeAll;
    hide Encode;
    EncodeOne(BreakHole);
    HoleSize(0, 0);
  }

  // ----- expressions -----

  lemma {:induction false} ExprAnswers(e: Expr, names: seq<string>, k: seq<Value>, c: Ctx, pos: nat, n: nat)
    requires Stands(names, c, pos, n)
    ensures Answers(GenExpr(e, names, k, c, pos), |k|, Bytes(e, n), Legal(e, ScopeOf(names, c)),
                    Fits(e, n) && Room(|names|, |k|, c, pos, Bytes(e, n)))
    decreases e, 1
  {
    hide Answers;
    hide Size;
    hide Stands;
    hide GlobalsFit;
    match e
    case Literal(v) => LiteralAnswers(v, |names|, k, c, pos);
    case Variable(name) => VariableAnswers(GET_LOCAL, GET_GLOBAL, name, names, k, c, pos);
    case Assign(name, rhs) =>
      ExprAnswers(rhs, names, k, c, pos, n);
      AssignAnswers(e, names, k, c, pos, n);
    case Unary(op, arg) =>
      ExprAnswers(arg, names, k, c, pos, n);
      UnaryAnswers(e, names, k, c, pos, n);
    case Binary(_, l, r) =>
      var f := GenExpr(l, names, k, c, pos);
      ExprAnswers(l, names, k, c, pos, n);
      LaterStands(names, c, pos, n, Size(f.code));
      ExprAnswers(r, names, f.consts, c, pos + Size(f.code), n);
      BinaryAnswers(e, names, k, c, pos, n, f);
    case And(_, _) => ShortCircuitAnswers(e, names, k, c, pos, n);
    case Or(_, _) => ShortCircuitAnswers(e, names, k, c, pos, n);
    case If(_, _, _) => IfAnswers(e, names, k, c, pos, n);
    case Block(b) => BlockAnswers(b, names, k, c, pos, n);
    case Loop(b) =>
      NewLoopStands(names, c, pos, n, true, 0);
      BlockAnswers(b, names, k, c.(loop := InLoop(pos, |names|, true)), pos, 0);
      LoopAnswers(e, names, k, c, c.(loop := InLoop(pos, |names|, true)), pos, n);
    case Call(f, args) =>
      var g := GenExpr(f, names, k, c, pos);
      ExprAnswers(f, names, k, c, pos, n);
      LaterStands(names, c, pos, n, Size(g.code));
      ArgsAnswers(args, names, g.consts, c, pos + Size(g.code), n);
      CallAnswers(e, names, k, c, pos, n, g);
    case Fn(def) => FnAnswers(e, names, k, c, pos, n);
  }

  lemma LaterStands(names: seq<string>, c: Ctx, pos: nat, n: nat, more: nat)
    requires Stands(names, c, pos, n)
    ensures Stands(names, c, pos + more, n)
  {
  }

  lemma NewLoopStands(names: seq<string>, c: Ctx, pos: nat, n: nat, isExpr: bool, more: nat)
    requires Stands(names, c, pos, n)
    ensures Stands(names, c.(loop := InLoop(pos, |names|, isExpr)), pos + more, 0)
  {
  }

  lemma LiteralAnswers(v: Value, names: nat, k: seq<Value>, c: Ctx, pos: nat)
    ensures Answers(GenLiteral(k, v), |k|, 4, true, Room(names, |k|, c, pos, 4))
  {
    hide Size;
    OneSize(NIL);
    OneSize(TRUE);
    OneSize(FALSE);
    VarLengthSize(CONSTANT, AddConstant(k, v).0);
  }

  lemma VariableAnswers(localOp: OpCode, globalOp: OpCode, name: string, names: seq<string>, k: seq<Value>, c: Ctx, pos: nat)
    ensures Answers(GenVariable(localOp, globalOp, name, names, k, c), |k|, 4, ScopeOf(names, c).Sees(name), Room(|names|, |k|, c, pos, 4))
  {
    hide Size;
    EmptySize();
    var i := LastIndex(names, name);
    if i >= 0 {
      VarLengthSize(localOp, i);
    } else if name in c.globals {
      VarLengthSize(globalOp, c.globals[name]);
    }
  }

  lemma AssignAnswers(e: Expr, names: seq<string>, k: seq<Value>, c: Ctx, pos: nat, n: nat)
    requires e.Assign?
    requires Answers(GenExpr(e.rhs, names, k, c, pos), |k|, Bytes(e.rhs, n), Legal(e.rhs, ScopeOf(names, c)),
                     Fits(e.rhs, n) && Room(|names|, |k|, c, pos, Bytes(e.rhs, n)))
    ensures Answers(GenExpr(e, names, k, c, pos), |k|, Bytes(e, n), Legal(e, ScopeOf(names, c)),
                    Fits(e, n) && Room(|names|, |k|, c, pos, Bytes(e, n)))
  {
    hide Size;
    hide GenVariable;
    hide GlobalsFit;
    var r := GenExpr(e.rhs, names, k, c, pos);
    var s := GenVariable(SET_LOCAL, SET_GLOBAL, e.name, names, r.consts, c);
    VariableAnswers(SET_LOCAL, SET_GLOBAL, e.name, names, r.consts, c, pos + Bytes(e.rhs, n));
    SizeAppend(r.code, s.code);
    SameConstants(e.name, names, r.consts, c);
  }

  lemma SameConstants(name: string, names: seq<string>, k: seq<Value>, c: Ctx)
    ensures GenVariable(SET_LOCAL, SET_GLOBAL, name, names, k, c).consts == k
  {
  }

  lemma UnaryAnswers(e: Expr, names: seq<string>, k: seq<Value>, c: Ctx, pos: nat, n: nat)
    requires e.Unary?
    requires Answers(GenExpr(e.arg, names, k, c, pos), |k|, Bytes(e.arg, n), Legal(e.arg, ScopeOf(names, c)),
                     Fits(e.arg, n) && Room(|names|, |k|, c, pos, Bytes(e.arg, n)))
    ensures Answers(GenExpr(e, names, k, c, pos), |k|, Bytes(e, n), Legal(e, ScopeOf(names, c)),
                    Fits(e, n) && Room(|names|, |k|, c, pos, Bytes(e, n)))
  {
    hide Size;
    hide GlobalsFit;
    var r := GenExpr(e.arg, names, k, c, pos);
    OneSize(UnaryOpcode(e.uop));
    SizeAppend(r.code, One(UnaryOpcode(e.uop)));
  }

  lemma BinaryAnswers(e: Expr, names: seq<string>, k: seq<Value>, c: Ctx, pos: nat, n: nat, l: Gen)
    requires e.Binary?
    requires Answers(GenExpr(e.left, names, k, c, pos), |k|, Bytes(e.left, n), Legal(e.left, ScopeOf(names, c)),
                     Fits(e.left, n) && Room(|names|, |k|, c, pos, Bytes(e.left, n)))
    requires l == GenExpr(e.left, names, k, c, pos)
    requires Answers(GenExpr(e.right, names, l.consts, c, pos + Size(l.code)), |l.consts|, Bytes(e.right, n), Legal(e.right, ScopeOf(names, c)),
                     Fits(e.right, n) && Room(|names|, |l.consts|, c, pos + Size(l.code), Bytes(e.right, n)))
    ensures Answers(GenExpr(e, names, k, c, pos), |k|, Bytes(e, n), Legal(e, ScopeOf(names, c)),
                    Fits(e, n) && Room(|names|, |k|, c, pos, Bytes(e, n)))
  {
    hide Size;
    hide GlobalsFit;
    hide GenExpr;
    var r := GenExpr(e.right, names, l.consts, c, pos + Size(l.code));
    BinaryCode(e, names, k, c, pos, l, r);
    assert OperandWidth(BinaryOpcode(e.bop)) == 0;
    OneSize(BinaryOpcode(e.bop));
    SizeAppend(l.code + r.code, One(BinaryOpcode(e.bop)));
    SizeAppend(l.code, r.code);
  }

  lemma {:induction false} ShortCircuitAnswers(e: Expr, names: seq<string>, k: seq<Value>, c: Ctx, pos: nat, n: nat)
    requires Stands(names, c, pos, n) && (e.And? || e.Or?)
    ensures Answers(GenExpr(e, names, k, c, pos), |k|, Bytes(e, n), Legal(e, ScopeOf(names, c)),
                    Fits(e, n) && Room(|names|, |k|, c, pos, Bytes(e, n)))
    decreases e, 0
  {
    hide Size;
    hide GenExpr;
    hide GlobalsFit;
    var q := PartsOfAnd(e, names, k, c, pos);
    ExprAnswers(e.left, names, k, c, pos, n);
    LaterStands(names, c, pos, n, Size(q.left.code) + q.glueSize);
    ExprAnswers(e.right, names, q.left.consts, c, q.mid + q.glueSize, n);
    GlueSize(e, names, k, c, pos, q);
    if e.And? { AndCode(e, names, k, c, pos, q); } else { OrCode(e, names, k, c, pos, q); }
    SizeAppend(q.left.code + q.glue, q.right.code);
    SizeAppend(q.left.code, q.glue);
  }

  lemma {:induction false} IfAnswers(e: Expr, names: seq<string>, k: seq<Value>, c: Ctx, pos: nat, n: nat)
    requires Stands(names, c, pos, n) && e.If?
    ensures Answers(GenExpr(e, names, k, c, pos), |k|, Bytes(e, n), Legal(e, ScopeOf(names, c)),
                    Fits(e, n) && Room(|names|, |k|, c, pos, Bytes(e, n)))
    decreases e, 0
  {
    hide Size;
    hide GenExpr;
    hide GenBlock;
    hide GlobalsFit;
    var q := PartsOfIf(e, names, k, c, pos);
    ExprAnswers(e.cond, names, k, c, pos, n);
    LaterStands(names, c, pos, n, Size(q.cond.code) + 4);
    BlockAnswers(e.thenBody, names, q.cond.consts, c, q.mid + 4, n);
    LaterStands(names, c, pos, n, Size(q.cond.code) + 4 + q.dt);
    ExprAnswers(e.elseExpr, names, q.thn.consts, c, q.mid + 3 + q.dt + 1, n);
    IfCode(e, names, k, c, pos, q);
    IfSize(q);
  }

  lemma IfSize(q: IfParts)
    ensures Size(q.cond.code + [Plain(JUMP_IF_FALSE, q.dt)] + One(POP) + q.thn.code + [Plain(JUMP, q.df)] + One(POP) + q.els.code)
         == Size(q.cond.code) + 4 + Size(q.thn.code) + 4 + Size(q.els.code)
  {
    hide Size;
    var a := q.cond.code + [Plain(JUMP_IF_FALSE, q.dt)];
    SizeOfPlain(JUMP_IF_FALSE, q.dt);
    SizeOfPlain(JUMP, q.df);
    OneSize(POP);
    SizeAppend(q.cond.code, [Plain(JUMP_IF_FALSE, q.dt)]);
    SizeAppend(a, One(POP));
    SizeAppend(a + One(POP), q.thn.code);
    var b := a + One(POP) + q.thn.code;
    SizeAppend(b, [Plain(JUMP, q.df)]);
    SizeAppend(b + [Plain(JUMP, q.df)], One(POP));
    SizeAppend(b + [Plain(JUMP, q.df)] + One(POP), q.els.code);
  }

  lemma LoopAnswers(e: Expr, names: seq<string>, k: seq<Value>, c: Ctx, c': Ctx, pos: nat, n: nat)
    requires e.Loop? && c' == c.(loop := InLoop(pos, |names|, true))
    requires Answers(GenBlock(e.body, names, k, c', pos), |k|, BlockBytes(e.body, 0), LegalBlock(e.body, ScopeOf(names, c')),
                     FitsBody(e.body, 0) && Room(|names|, |k|, c', pos, BlockBytes(e.body, 0)))
    ensures Answers(GenExpr(e, names, k, c, pos), |k|, Bytes(e, n), Legal(e, ScopeOf(names, c)),
                    Fits(e, n) && Room(|names|, |k|, c, pos, Bytes(e, n)))
  {
    hide GenExpr;
    hide GenBlock;
    hide Answers;
    hide Room;
    hide Legal;
    hide LegalBlock;
    hide Fits;
    hide FitsBody;
    hide Bytes;
    hide BlockBytes;
    hide ScopeOf;
    hide Size;
    LoopSize(e, names, k, c, pos);
    LoopRoom(GenExpr(e, names, k, c, pos), GenBlock(e.body, names, k, c', pos), |names|, |k|, c, c', pos,
             BlockBytes(e.body, 0), LegalBlock(e.body, ScopeOf(names, c')), FitsBody(e.body, 0));
    LoopMeasures(e, names, c, pos, n);
  }

  lemma LoopSize(e: Expr, names: seq<string>, k: seq<Value>, c: Ctx, pos: nat)
    requires e.Loop?
    ensures
      var b := GenBlock(e.body, names, k, c.(loop := InLoop(pos, |names|, true)), pos);
      var g := GenExpr(e, names, k, c, pos);
      Size(g.code) == Size(b.code) + 4 && g.consts == b.consts && g.ok == (b.ok && Size(b.code) + 4 <= 65535)
  {
    hide Size;
    hide GenExpr;
    hide GenBlock;
    hide Patch;
    var b := GenBlock(e.body, names, k, c.(loop := InLoop(pos, |names|, true)), pos);
    var d := Size(b.code) + 4;
    LoopCode(e, names, k, c, pos, b);
    PatchSize(b.code + One(POP) + [Plain(LOOP, d)], pos, pos + d);
    OneSize(POP);
    SizeOfPlain(LOOP, d);
    SizeAppend(b.code + One(POP), [Plain(LOOP, d)]);
    SizeAppend(b.code, One(POP));
  }

  lemma LoopRoom(g: Gen, b: Gen, names: nat, k: nat, c: Ctx, c': Ctx, pos: nat, bytes: nat, legal: bool, fits: bool)
    requires Answers(b, k, bytes, legal, fits && Room(names, k, c', pos, bytes))
    requires c'.loop.InLoop? && c'.loop.start == pos && c'.globals == c.globals
    requires Size(g.code) == Size(b.code) + 4 && g.consts == b.consts && g.ok == (b.ok && Size(b.code) + 4 <= 65535)
    ensures Answers(g, k, bytes + 4, legal, fits && bytes + 4 <= 65535 && Room(names, k, c, pos, bytes + 4))
  {
    hide Size;
    hide GlobalsFit;
  }

  lemma LoopMeasures(e: Expr, names: seq<string>, c: Ctx, pos: nat, n: nat)
    requires e.Loop?
    ensures Legal(e, ScopeOf(names, c)) <==> LegalBlock(e.body, ScopeOf(names, c.(loop := InLoop(pos, |names|, true))))
    ensures Bytes(e, n) == BlockBytes(e.body, 0) + 4
    ensures Fits(e, n) <==> FitsBody(e.body, 0) && BlockBytes(e.body, 0) + 4 <= 65535
  {
    hide LegalBlock;
    assert ScopeOf(names, c).(loop := InLoopExpr) == ScopeOf(names, c.(loop := InLoop(pos, |names|, true)));
  }

  lemma CallAnswers(e: Expr, names: seq<string>, k: seq<Value>, c: Ctx, pos: nat, n: nat, f: Gen)
    requires e.Call?
    requires Answers(GenExpr(e.callee, names, k, c, pos), |k|, Bytes(e.callee, n), Legal(e.callee, ScopeOf(names, c)),
                     Fits(e.callee, n) && Room(|names|, |k|, c, pos, Bytes(e.callee, n)))
    requires f == GenExpr(e.callee, names, k, c, pos)
    requires Answers(GenArgs(e.args, names, f.consts, c, pos + Size(f.code)), |f.consts|, ArgsBytes(e.args, n), LegalArgs(e.args, ScopeOf(names, c)),
                     FitsArgs(e.args, n) && Room(|names|, |f.consts|, c, pos + Size(f.code), ArgsBytes(e.args, n)))
    ensures Answers(GenExpr(e, names, k, c, pos), |k|, Bytes(e, n), Legal(e, ScopeOf(names, c)),
                    Fits(e, n) && Room(|names|, |k|, c, pos, Bytes(e, n)))
  {
    hide Size;
    hide GlobalsFit;
    hide GenExpr;
    hide GenArgs;
    var a := GenArgs(e.args, names, f.consts, c, pos + Size(f.code));
    CallCode(e, names, k, c, pos, f, a);
    SizeOfPlain(CALL, ArgCount(e.args));
    SizeAppend(f.code + a.code, [Plain(CALL, ArgCount(e.args))]);
    SizeAppend(f.code, a.code);
  }

  lemma FnAnswers(e: Expr, names: seq<string>, k: seq<Value>, c: Ctx, pos: nat, n: nat)
    requires e.Fn?
    ensures Answers(GenExpr(e, names, k, c, pos), |k|, Bytes(e, n), Legal(e, ScopeOf(names, c)),
                    Fits(e, n) && Room(|names|, |k|, c, pos, Bytes(e, n)))
  {
    hide Size;
    hide GlobalsFit;
    ClosureSize(AddConstant(k, Value.Function(e.def)).0);
  }

  lemma {:induction false} ArgsAnswers(args: Args, names: seq<string>, k: seq<Value>, c: Ctx, pos: nat, n: nat)
    requires Stands(names, c, pos, n)
    ensures Answers(GenArgs(args, names, k, c, pos), |k|, ArgsBytes(args, n), LegalArgs(args, ScopeOf(names, c)),
                    FitsArgs(args, n) && Room(|names|, |k|, c, pos, ArgsBytes(args, n)))
    decreases args
  {
    hide Size;
    hide GenExpr;
    hide GlobalsFit;
    if args.NoArgs? {
      EmptySize();
    } else {
      var f := GenExpr(args.first, names, k, c, pos);
      var r := GenArgs(args.rest, names, f.consts, c, pos + Size(f.code));
      ExprAnswers(args.first, names, k, c, pos, n);
      LaterStands(names, c, pos, n, Size(f.code));
      ArgsAnswers(args.rest, names, f.consts, c, pos + Size(f.code), n);
      ArgsCode(args, names, k, c, pos, f, r);
      SizeAppend(f.code, r.code);
    }
  }

  // ----- blocks and statements -----

  lemma {:induction false} BlockAnswers(b: Body, names: seq<string>, k: seq<Value>, c: Ctx, pos: nat, n: nat)
    requires Stands(names, c, pos, n)
    ensures Answers(GenBlock(b, names, k, c, pos), |k|, BlockBytes(b, n), LegalBlock(b, ScopeOf(names, c)),
                    FitsBody(b, n) && Room(|names|, |k|, c, pos, BlockBytes(b, n)))
    decreases b, 3
  {
    hide Size;
    hide GenBody;
    hide GlobalsFit;
    var c' := c.(scopeStart := |names|);
    BodyAnswers(b, names, k, c', pos, n);
    var g := GenBody(b, names, k, c', pos);
    SizeAppend(g.code, EndScope(LetCount(b)));
    EndScopeSize(LetCount(b));
    FewLets(b, n);
    assert ScopeOf(names, c').since == |names| && ScopeOf(names, c') == ScopeOf(names, c).(since := |names|);
  }

  lemma {:induction false} FewLets(b: Body, n: nat)
    ensures LetCount(b) <= BodyBytes(b, n)
    decreases b
  {
    match b
    case Done =>
    case Result(_) =>
    case Let(_, _, rest) => FewLets(rest, n + 1);
    case Then(_, rest) => FewLets(rest, n);
  }

  lemma {:induction false} BodyAnswers(b: Body, names: seq<string>, k: seq<Value>, c: Ctx, pos: nat, n: nat)
    requires Stands(names, c, pos, n)
    ensures Answers(GenBody(b, names, k, c, pos), |k|, BodyBytes(b, n), LegalBody(b, ScopeOf(names, c)),
                    FitsBody(b, n) && Room(|names|, |k|, c, pos, BodyBytes(b, n)))
    decreases b, 2
  {
    hide Size;
    hide GenExpr;
    hide GenStmt;
    hide GlobalsFit;
    match b
    case Done => OneSize(NIL);
    case Result(e) => ExprAnswers(e, names, k, c, pos, n);
    case Let(name, init, rest) =>
      var i := GenExpr(init, names, k, c, pos);
      var r := GenBody(rest, names + [name], i.consts, c, pos + Size(i.code));
      ExprAnswers(init, names, k, c, pos, n);
      BodyAnswers(rest, names + [name], i.consts, c, pos + Size(i.code), n + 1);
      LetCode(b, names, k, c, pos, i, r);
      SizeAppend(i.code, r.code);
      assert ScopeOf(names + [name], c) == ScopeOf(names, c).(names := names + [name]);
    case Then(s, rest) =>
      var d := GenStmt(s, names, k, c, pos);
      var r := GenBody(rest, names, d.consts, c, pos + Size(d.code));
      StmtAnswers(s, names, k, c, pos, n);
      LaterStands(names, c, pos, n, Size(d.code));
      BodyAnswers(rest, names, d.consts, c, pos + Size(d.code), n);
      SeqCode(b, names, k, c, pos, d, r);
      SizeAppend(d.code, r.code);
  }

  lemma {:induction false} StmtAnswers(s: Stmt, names: seq<string>, k: seq<Value>, c: Ctx, pos: nat, n: nat)
    requires Stands(names, c, pos, n)
    ensures Answers(GenStmt(s, names, k, c, pos), |k|, StmtBytes(s, n), LegalStmt(s, ScopeOf(names, c)),
                    FitsStmt(s, n) && Room(|names|, |k|, c, pos, StmtBytes(s, n)))
    decreases s, 1
  {
    hide Size;
    hide GenExpr;
    hide GlobalsFit;
    match s
    case Discard(e) =>
      var r := GenExpr(e, names, k, c, pos);
      ExprAnswers(e, names, k, c, pos, n);
      OneSize(POP);
      SizeAppend(r.code, One(POP));
    case While(_, _) => WhileAnswers(s, names, k, c, pos, n);
    case Break(_) => BreakAnswers(s, names, k, c, pos, n);
    case Continue => ContinueAnswers(names, k, c, pos, n);
    case Return(e) =>
      var r := GenExpr(e, names, k, c, pos);
      ExprAnswers(e, names, k, c, pos, n);
      OneSize(RETURN);
      SizeAppend(r.code, One(RETURN));
  }

  lemma {:induction false} WhileAnswers(s: Stmt, names: seq<string>, k: seq<Value>, c: Ctx, pos: nat, n: nat)
    requires Stands(names, c, pos, n) && s.While?
    ensures Answers(GenStmt(s, names, k, c, pos), |k|, StmtBytes(s, n), LegalStmt(s, ScopeOf(names, c)),
                    FitsStmt(s, n) && Room(|names|, |k|, c, pos, StmtBytes(s, n)))
    decreases s, 0
  {
    hide Size;
    hide GenStmt;
    hide GenExpr;
    hide GenBlock;
    hide Patch;
    hide GlobalsFit;
    hide Legal;
    hide LegalStmt;
    hide LegalBlock;
    hide Fits;
    hide FitsStmt;
    hide FitsBody;
    hide Bytes;
    hide BlockBytes;
    hide StmtBytes;
    hide ScopeOf;
    WhileMeasures(s, names, c, pos, n);
    var c' := c.(loop := InLoop(pos, |names|, false));
    var q := PiecesOfWhile(s, names, k, c, pos);
    NewLoopStands(names, c, pos, n, false, 0);
    ExprAnswers(s.cond, names, k, c', pos, 0);
    NewLoopStands(names, c, pos, n, false, Size(q.cond.code) + 4);
    BlockAnswers(s.body, names, q.cond.consts, c', pos + Size(q.cond.code) + 4, 0);
    WhileCode(s, names, k, c, pos, q);
    PatchSize(q.inner, pos, pos + q.d + 1);
    WhileInnerSize(q);
  }

  lemma WhileMeasures(s: Stmt, names: seq<string>, c: Ctx, pos: nat, n: nat)
    requires s.While?
    ensures
      var inside := ScopeOf(names, c.(loop := InLoop(pos, |names|, false)));
      LegalStmt(s, ScopeOf(names, c)) == (Legal(s.cond, inside) && LegalBlock(s.body, inside))
    ensures StmtBytes(s, n) == Bytes(s.cond, 0) + 4 + BlockBytes(s.body, 0) + 5
    ensures FitsStmt(s, n) == (Fits(s.cond, 0) && FitsBody(s.body, 0) && Bytes(s.cond, 0) + BlockBytes(s.body, 0) + 9 <= 65535)
  {
    hide Legal;
    hide LegalBlock;
    hide Fits;
    hide FitsBody;
    hide Bytes;
    hide BlockBytes;
    assert ScopeOf(names, c).(loop := InWhile) == ScopeOf(names, c.(loop := InLoop(pos, |names|, false)));
  }

  lemma WhileInnerSize(q: WhilePieces)
    requires q.inner == q.cond.code + [Plain(JUMP_IF_FALSE, q.dx)] + One(POP) + q.body.code + One(POP) + [Plain(LOOP, q.d)] + One(POP)
    ensures Size(q.inner) == Size(q.cond.code) + 4 + Size(q.body.code) + 5
  {
    hide Size;
    var a := q.cond.code + [Plain(JUMP_IF_FALSE, q.dx)];
    SizeOfPlain(JUMP_IF_FALSE, q.dx);
    SizeOfPlain(LOOP, q.d);
    OneSize(POP);
    SizeAppend(q.cond.code, [Plain(JUMP_IF_FALSE, q.dx)]);
    SizeAppend(a, One(POP));
    SizeAppend(a + One(POP), q.body.code);
    var b := a + One(POP) + q.body.code;
    SizeAppend(b, One(POP));
    SizeAppend(b + One(POP), [Plain(LOOP, q.d)]);
    SizeAppend(b + One(POP) + [Plain(LOOP, q.d)], One(POP));
  }

  lemma {:induction false} BreakAnswers(s: Stmt, names: seq<string>, k: seq<Value>, c: Ctx, pos: nat, n: nat)
    requires Stands(names, c, pos, n) && s.Break?
    ensures Answers(GenStmt(s, names, k, c, pos), |k|, StmtBytes(s, n), LegalStmt(s, ScopeOf(names, c)),
                    FitsStmt(s, n) && Room(|names|, |k|, c, pos, StmtBytes(s, n)))
    decreases s, 0
  {
    hide Size;
    hide GenExpr;
    hide GenStmt;
    hide GlobalsFit;
    hide Legal;
    hide Bytes;
    hide Fits;
    EmptySize();
    HoleBytes();
    BreakCode(s, names, k, c, pos, n);
    if c.loop.InLoop? {
      if c.loop.isExpr {
        var r := if s.value.None? then GenLiteral(k, Nil) else GenExpr(s.value.value, names, k, c, pos);
        if s.value.Some? { ExprAnswers(s.value.value, names, k, c, pos, n); } else { OneSize(NIL); }
        EndScopeSize(n);
        SizeAppend(r.code + EndScope(n), [BreakHole]);
        SizeAppend(r.code, EndScope(n));
      } else {
        PopsBytes(n);
        SizeAppend(Pops(n), [BreakHole]);
      }
    }
  }

  lemma BreakCode(s: Stmt, names: seq<string>, k: seq<Value>, c: Ctx, pos: nat, n: nat)
    requires Stands(names, c, pos, n) && s.Break?
    ensures GenStmt(s, names, k, c, pos) ==
      if c.loop.NoLoop? then Gen([], k, false, true)
      else if c.loop.isExpr then
        var r := if s.value.None? then GenLiteral(k, Nil) else GenExpr(s.value.value, names, k, c, pos);
        Gen(r.code + EndScope(n) + [BreakHole], r.consts, r.ok && n < MAX_INDEX, r.aligned)
      else Gen(Pops(n) + [BreakHole], k, s.value.None?, true)
  {
    hide Pops;
    hide GenExpr;
    hide EndScope;
    hide GenLiteral;
  }

  lemma ContinueAnswers(names: seq<string>, k: seq<Value>, c: Ctx, pos: nat, n: nat)
    requires Stands(names, c, pos, n)
    ensures Answers(GenStmt(Continue, names, k, c, pos), |k|, StmtBytes(Continue, n), LegalStmt(Continue, ScopeOf(names, c)),
                    FitsStmt(Continue, n) && Room(|names|, |k|, c, pos, StmtBytes(Continue, n)))
  {
    hide Size;
    hide GenStmt;
    hide GlobalsFit;
    hide Pops;
    hide LegalStmt;
    EmptySize();
    ContinueCode(names, k, c, pos, n);
    assert LegalStmt(Continue, ScopeOf(names, c)) == c.loop.InLoop? by { ContinueLegal(names, c); }
    if c.loop.InLoop? {
      var d := pos + n + 3 - c.loop.start;
      PopsBytes(n);
      SizeOfPlain(LOOP, d);
      SizeAppend(Pops(n), [Plain(LOOP, d)]);
    }
  }

  lemma ContinueLegal(names: seq<string>, c: Ctx)
    ensures LegalStmt(Continue, ScopeOf(names, c)) == c.loop.InLoop?
  {
  }

  lemma ContinueCode(names: seq<string>, k: seq<Value>, c: Ctx, pos: nat, n: nat)
    requires Stands(names, c, pos, n)
    ensures GenStmt(Continue, names, k, c, pos) ==
      if c.loop.NoLoop? then Gen([], k, false, true)
      else Gen(Pops(n) + [Plain(LOOP, pos + n + 3 - c.loop.start)], k, pos + n + 3 - c.loop.start <= MAX_JUMP, true)
  {
    hide Pops;
  }

  // ----- functions and scripts -----

  /** A function that is not legal is refused, and a legal one of moderate size accepted. */
  lemma FunctionAccepted(def: FnDef, globals: map<string, nat>)
    ensures GenFunction(def, globals).ok ==> LegalFunction(def, globals.Keys)
    ensures LegalFunction(def, globals.Keys) && FitsFunction(def) && GlobalsFit(globals) ==> GenFunction(def, globals).ok
  {
    hide GenBody;
    hide LegalBody;
    hide GlobalsFit;
    var names, c := [""] + def.params, Ctx(globals, true, 1, NoLoop);
    BodyAnswers(def.body, names, [], c, 0, 0);
    assert ScopeOf(names, c) == Scope(names, 1, true, NotInLoop, globals.Keys);
  }

  lemma {:induction false} ScriptAccepted(p: Script, k: seq<Value>, globals: map<string, nat>, pos: nat)
    ensures ScriptAnswers(p, GenScript(p, k, globals, pos), k, globals)
    decreases p
  {
    hide Size;
    hide GenExpr;
    hide GenStmt;
    hide GenScript;
    hide Legal;
    hide LegalStmt;
    hide LegalScript;
    hide Answers;
    hide ScriptAnswers;
    hide Room;
    hide Bytes;
    hide StmtBytes;
    hide Fits;
    hide FitsStmt;
    hide ScopeOf;
    hide VarLength;
    var c := Ctx(globals, false, 0, NoLoop);
    match p
    case End => EndAccepted(p, k, globals, pos);
    case Define(name, init, next) =>
      ExprAnswers(init, [""], k, c, pos, 0);
      var i := GenExpr(init, [""], k, c, pos);
      if name in globals {
        var next_pos := pos + Size(i.code) + Size([VarLength(DEFINE_GLOBAL, globals[name])]);
        ScriptAccepted(next, i.consts, globals, next_pos);
        DefineAccepted(p, k, globals, c, pos, i, GenScript(next, i.consts, globals, next_pos));
      } else {
        UnknownGlobal(p, k, globals, pos);
      }
    case Run(st, next) =>
      StmtAnswers(st, [""], k, c, pos, 0);
      var d := GenStmt(st, [""], k, c, pos);
      ScriptAccepted(next, d.consts, globals, pos + Size(d.code));
      RunAccepted(p, k, globals, c, pos, d, GenScript(next, d.consts, globals, pos + Size(d.code)));
  }

  ghost predicate ScriptAnswers(p: Script, g: Gen, k: seq<Value>, globals: map<string, nat>) {
    && (g.ok ==> LegalScript(p, globals.Keys))
    && (LegalScript(p, globals.Keys) && FitsScript(p) && |k| + ScriptBytes(p) + 1 < 0x100_0000 && GlobalsFit(globals) ==> g.ok)
  }

  lemma EndAccepted(p: Script, k: seq<Value>, globals: map<string, nat>, pos: nat)
    requires p.End?
    ensures ScriptAnswers(p, GenScript(p, k, globals, pos), k, globals)
  {
  }

  lemma UnknownGlobal(p: Script, k: seq<Value>, globals: map<string, nat>, pos: nat)
    requires p.Define? && p.name !in globals
    ensures ScriptAnswers(p, GenScript(p, k, globals, pos), k, globals)
  {
    hide Size;
    hide GenExpr;
    hide Legal;
  }

  lemma DefineAccepted(p: Script, k: seq<Value>, globals: map<string, nat>, c: Ctx, pos: nat, i: Gen, r: Gen)
    requires p.Define? && p.name in globals && c == Ctx(globals, false, 0, NoLoop)
    requires i == GenExpr(p.init, [""], k, c, pos)
    requires r == GenScript(p.next, i.consts, globals, pos + Size(i.code) + Size([VarLength(DEFINE_GLOBAL, globals[p.name])]))
    requires Answers(i, |k|, Bytes(p.init, 0), Legal(p.init, ScopeOf([""], c)), Fits(p.init, 0) && Room(|[""]|, |k|, c, pos, Bytes(p.init, 0)))
    requires ScriptAnswers(p.next, r, i.consts, globals)
    ensures ScriptAnswers(p, GenScript(p, k, globals, pos), k, globals)
  {
    hide Size;
    hide GenExpr;
    hide Legal;
    hide Bytes;
    hide Fits;
    assert ScopeOf([""], Ctx(globals, false, 0, NoLoop)) == Scope([""], 0, false, NotInLoop, globals.Keys);
    var g := GenScript(p, k, globals, pos);
    assert g.ok == (i.ok && r.ok && globals[p.name] < MAX_INDEX);
    hide GenScript;
  }

  lemma RunAccepted(p: Script, k: seq<Value>, globals: map<string, nat>, c: Ctx, pos: nat, d: Gen, r: Gen)
    requires p.Run? && c == Ctx(globals, false, 0, NoLoop)
    requires d == GenStmt(p.s, [""], k, c, pos)
    requires r == GenScript(p.next, d.consts, globals, pos + Size(d.code))
    requires Answers(d, |k|, StmtBytes(p.s, 0), LegalStmt(p.s, ScopeOf([""], c)), FitsStmt(p.s, 0) && Room(|[""]|, |k|, c, pos, StmtBytes(p.s, 0)))
    requires ScriptAnswers(p.next, r, d.consts, globals)
    ensures ScriptAnswers(p, GenScript(p, k, globals, pos), k, globals)
  {
    hide Size;
    hide GenStmt;
    hide LegalStmt;
    hide StmtBytes;
    hide FitsStmt;
    assert ScopeOf([""], Ctx(globals, false, 0, NoLoop)) == Scope([""], 0, false, NotInLoop, globals.Keys);
    var g := GenScript(p, k, globals, pos);
    assert g.ok == (d.ok && r.ok);
    hide GenScript;
  }

  // ----- closures in loops -----

  /** How many constants a tree has at most. */
  function Constants(e: Expr): nat
    decreases e
  {
    match e
    case Literal(_) => 1
    case Variable(_) => 0
    case Assign(_, rhs) => Constants(rhs)
    case Unary(_, arg) => Constants(arg)
    case Binary(_, l, r) => Constants(l) + Constants(r)
    case And(l, r) => Constants(l) + Constants(r)
    case Or(l, r) => Constants(l) + Constants(r)
    case If(cond, t, f) => Constants(cond) + BodyConstants(t) + Constants(f)
    case Block(b) => BodyConstants(b)
    case Loop(b) => BodyConstants(b)
    case Call(f, args) => Constants(f) + ArgsConstants(args)
    case Fn(_) => 1
  }

  function ArgsConstants(args: Args): nat
    decreases args
  {
    if args.NoArgs? then 0 else Constants(args.first) + ArgsConstants(args.rest)
  }

  function BodyConstants(b: Body): nat
    decreases b
  {
    match b
    case Done => 0
    case Result(e) => Constants(e)
    case Let(_, init, rest) => Constants(init) + BodyConstants(rest)
    case Then(s, rest) => StmtConstants(s) + BodyConstants(rest)
  }

  function StmtConstants(s: Stmt): nat
    decreases s
  {
    match s
    case Discard(e) => Constants(e)
    case While(cond, body) => Constants(cond) + BodyConstants(body)
    case Break(value) => if value.None? then 0 else Constants(value.value)
    case Continue => 0
    case Return(e) => Constants(e)
  }

  function ScriptConstants(p: Script): nat
    decreases p
  {
    match p
    case End => 0
    case Define(_, init, next) => Constants(init) + ScriptConstants(next)
    case Run(s, next) => StmtConstants(s) + ScriptConstants(next)
  }

  lemma FewConstants(k: seq<Value>, v: Value)
    ensures |AddConstant(k, v).1| <= |k| + 1 && AddConstant(k, v).0 <= |k|
  {
  }

  /** Closures in loops have short indices where there are at most 256 constants. */
  lemma {:induction false} ExprAligned(e: Expr, names: seq<string>, k: seq<Value>, c: Ctx, pos: nat)
    ensures |GenExpr(e, names, k, c, pos).consts| <= |k| + Constants(e)
    ensures |k| + Constants(e) <= 256 ==> GenExpr(e, names, k, c, pos).aligned
    decreases e, 1
  {
    hide Size;
    hide Patch;
    hide GenBlock;
    match e
    case Literal(v) => FewConstants(k, v);
    case Variable(_) =>
    case Assign(_, rhs) => ExprAligned(rhs, names, k, c, pos);
    case Unary(_, arg) => ExprAligned(arg, names, k, c, pos);
    case Binary(_, _, _) => OperandsAligned(e, names, k, c, pos);
    case And(_, _) => OperandsAligned(e, names, k, c, pos);
    case Or(_, _) => OperandsAligned(e, names, k, c, pos);
    case If(_, _, _) => IfAligned(e, names, k, c, pos);
    case Block(b) => BlockAligned(b, names, k, c, pos);
    case Loop(b) => BlockAligned(b, names, k, c.(loop := InLoop(pos, |names|, true)), pos);
    case Call(f, args) =>
      var g := GenExpr(f, names, k, c, pos);
      ExprAligned(f, names, k, c, pos);
      ArgsAligned(args, names, g.consts, c, pos + Size(g.code));
    case Fn(def) => FewConstants(k, Value.Function(def));
  }

  lemma {:induction false} OperandsAligned(e: Expr, names: seq<string>, k: seq<Value>, c: Ctx, pos: nat)
    requires e.Binary? || e.And? || e.Or?
    ensures |GenExpr(e, names, k, c, pos).consts| <= |k| + Constants(e)
    ensures |k| + Constants(e) <= 256 ==> GenExpr(e, names, k, c, pos).aligned
    decreases e, 0
  {
    hide Size;
    hide GenExpr;
    if e.Binary? {
      var l := GenExpr(e.left, names, k, c, pos);
      var r := GenExpr(e.right, names, l.consts, c, pos + Size(l.code));
      ExprAligned(e.left, names, k, c, pos);
      ExprAligned(e.right, names, l.consts, c, pos + Size(l.code));
      BinaryCode(e, names, k, c, pos, l, r);
    } else {
      var q := PartsOfAnd(e, names, k, c, pos);
      ExprAligned(e.left, names, k, c, pos);
      ExprAligned(e.right, names, q.left.consts, c, q.mid + q.glueSize);
      if e.And? { AndCode(e, names, k, c, pos, q); } else { OrCode(e, names, k, c, pos, q); }
    }
  }

  lemma {:induction false} IfAligned(e: Expr, names: seq<string>, k: seq<Value>, c: Ctx, pos: nat)
    requires e.If?
    ensures |GenExpr(e, names, k, c, pos).consts| <= |k| + Constants(e)
    ensures |k| + Constants(e) <= 256 ==> GenExpr(e, names, k, c, pos).aligned
    decreases e, 0
  {
    hide Size;
    hide GenExpr;
    hide GenBlock;
    var q := PartsOfIf(e, names, k, c, pos);
    ExprAligned(e.cond, names, k, c, pos);
    BlockAligned(e.thenBody, names, q.cond.consts, c, q.mid + 4);
    ExprAligned(e.elseExpr, names, q.thn.consts, c, q.mid + 3 + q.dt + 1);
    IfCode(e, names, k, c, pos, q);
  }

  lemma {:induction false} ArgsAligned(args: Args, names: seq<string>, k: seq<Value>, c: Ctx, pos: nat)
    ensures |GenArgs(args, names, k, c, pos).consts| <= |k| + ArgsConstants(args)
    ensures |k| + ArgsConstants(args) <= 256 ==> GenArgs(args, names, k, c, pos).aligned
    decreases args
  {
    hide Size;
    hide GenExpr;
    if args.Arg? {
      var f := GenExpr(args.first, names, k, c, pos);
      ExprAligned(args.first, names, k, c, pos);
      ArgsAligned(args.rest, names, f.consts, c, pos + Size(f.code));
    }
  }

  lemma {:induction false} BlockAligned(b: Body, names: seq<string>, k: seq<Value>, c: Ctx, pos: nat)
    ensures |GenBlock(b, names, k, c, pos).consts| <= |k| + BodyConstants(b)
    ensures |k| + BodyConstants(b) <= 256 ==> GenBlock(b, names, k, c, pos).aligned
    decreases b, 1
  {
    hide GenBody;
    BodyAligned(b, names, k, c.(scopeStart := |names|), pos);
  }

  lemma {:induction false} BodyAligned(b: Body, names: seq<string>, k: seq<Value>, c: Ctx, pos: nat)
    ensures |GenBody(b, names, k, c, pos).consts| <= |k| + BodyConstants(b)
    ensures |k| + BodyConstants(b) <= 256 ==> GenBody(b, names, k, c, pos).aligned
    decreases b, 0
  {
    hide Size;
    hide GenExpr;
    hide GenStmt;
    match b
    case Done =>
    case Result(e) => ExprAligned(e, names, k, c, pos);
    case Let(name, init, rest) =>
      var i := GenExpr(init, names, k, c, pos);
      ExprAligned(init, names, k, c, pos);
      BodyAligned(rest, names + [name], i.consts, c, pos + Size(i.code));
    case Then(s, rest) =>
      var d := GenStmt(s, names, k, c, pos);
      StmtAligned(s, names, k, c, pos);
      BodyAligned(rest, names, d.consts, c, pos + Size(d.code));
  }

  lemma {:induction false} StmtAligned(s: Stmt, names: seq<string>, k: seq<Value>, c: Ctx, pos: nat)
    ensures |GenStmt(s, names, k, c, pos).consts| <= |k| + StmtConstants(s)
    ensures |k| + StmtConstants(s) <= 256 ==> GenStmt(s, names, k, c, pos).aligned
    decreases s
  {
    hide Size;
    hide GenExpr;
    hide GenBlock;
    hide Patch;
    hide Pops;
    match s
    case Discard(e) => ExprAligned(e, names, k, c, pos);
    case While(cond, body) =>
      var q := PiecesOfWhile(s, names, k, c, pos);
      var c' := c.(loop := InLoop(pos, |names|, false));
      ExprAligned(cond, names, k, c', pos);
      BlockAligned(body, names, q.cond.consts, c', pos + Size(q.cond.code) + 4);
      WhileCode(s, names, k, c, pos, q);
    case Break(value) => if value.Some? { ExprAligned(value.value, names, k, c, pos); }
    case Continue =>
    case Return(e) => ExprAligned(e, names, k, c, pos);
  }

  lemma {:induction false} ScriptAligned(p: Script, k: seq<Value>, globals: map<string, nat>, pos: nat)
    requires |k| + ScriptConstants(p) <= 256
    ensures GenScript(p, k, globals, pos).aligned
    decreases p
  {
    hide Size;
    hide GenExpr;
    hide GenStmt;
    var c := Ctx(globals, false, 0, NoLoop);
    match p
    case End =>
    case Define(name, init, next) =>
      ExprAligned(init, [""], k, c, pos);
      var i := GenExpr(init, [""], k, c, pos);
      if name in globals { ScriptAligned(next, i.consts, globals, pos + Size(i.code) + Size([VarLength(DEFINE_GLOBAL, globals[name])])); }
    case Run(st, next) =>
      StmtAligned(st, [""], k, c, pos);
      var d := GenStmt(st, [""], k, c, pos);
      ScriptAligned(next, d.consts, globals, pos + Size(d.code));
  }

  // ----- where locals and exits may stand -----

  /** An expression without blocks. */
  predicate Flat(e: Expr)
    decreases e
  {
    match e
    case Assign(_, rhs) => Flat(rhs)
    case Unary(_, arg) => Flat(arg)
    case Binary(_, l, r) => Flat(l) && Flat(r)
    case And(l, r) => Flat(l) && Flat(r)
    case Or(l, r) => Flat(l) && Flat(r)
    case If(_, _, _) => false
    case Block(_) => false
    case Loop(_) => false
    case Call(f, args) => Flat(f) && FlatArgs(args)
    case _ => true
  }

  predicate FlatArgs(args: Args)
    decreases args
  {
    args.Arg? ==> Flat(args.first) && FlatArgs(args.rest)
  }

  lemma {:induction false} FlatPlaced(e: Expr)
    requires Flat(e)
    ensures Placed(e) && NoLet(e) && NoExit(e)
    decreases e
  {
    match e
    case Assign(_, rhs) => FlatPlaced(rhs);
    case Unary(_, arg) => FlatPlaced(arg);
    case Binary(_, l, r) => FlatPlaced(l); FlatPlaced(r);
    case And(l, r) => FlatPlaced(l); FlatPlaced(r);
    case Or(l, r) => FlatPlaced(l); FlatPlaced(r);
    case Call(f, args) => FlatPlaced(f); FlatArgsPlaced(args);
    case _ =>
  }

  lemma {:induction false} FlatArgsPlaced(args: Args)
    requires FlatArgs(args)
    ensures PlacedArgs(args) && NoLetArgs(args) && NoExitArgs(args)
    decreases args
  {
    if args.Arg? {
      FlatPlaced(args.first);
      FlatArgsPlaced(args.rest);
    }
  }

  /** Only right operands and arguments have to be without blocks. */
  predicate FlatOperands(e: Expr)
    decreases e
  {
    match e
    case Assign(_, rhs) => FlatOperands(rhs)
    case Unary(_, arg) => FlatOperands(arg)
    case Binary(_, l, r) => FlatOperands(l) && Flat(r)
    case And(l, r) => FlatOperands(l) && FlatOperands(r)
    case Or(l, r) => FlatOperands(l) && FlatOperands(r)
    case If(cond, t, f) => FlatOperands(cond) && FlatOperandsBody(t) && FlatOperands(f)
    case Block(b) => FlatOperandsBody(b)
    case Loop(b) => FlatOperandsBody(b)
    case Call(f, args) => FlatOperands(f) && FlatArgs(args)
    case _ => true
  }

  predicate FlatOperandsBody(b: Body)
    decreases b
  {
    match b
    case Done => true
    case Result(e) => FlatOperands(e)
    case Let(_, init, rest) => FlatOperands(init) && FlatOperandsBody(rest)
    case Then(s, rest) => FlatOperandsStmt(s) && FlatOperandsBody(rest)
  }

  predicate FlatOperandsStmt(s: Stmt)
    decreases s
  {
    match s
    case Discard(e) => FlatOperands(e)
    case While(cond, body) => FlatOperands(cond) && FlatOperandsBody(body)
    case Break(value) => value.Some? ==> FlatOperands(value.value)
    case Continue => true
    case Return(e) => FlatOperands(e)
  }

  predicate FlatOperandsScript(p: Script)
    decreases p
  {
    match p
    case End => true
    case Define(_, init, next) => FlatOperands(init) && FlatOperandsScript(next)
    case Run(s, next) => FlatOperandsStmt(s) && FlatOperandsScript(next)
  }

  lemma {:induction false} FlatOperandsPlaced(e: Expr)
    requires FlatOperands(e)
    ensures Placed(e)
    decreases e
  {
    match e
    case Assign(_, rhs) => FlatOperandsPlaced(rhs);
    case Unary(_, arg) => FlatOperandsPlaced(arg);
    case Binary(_, l, r) => FlatOperandsPlaced(l); FlatPlaced(r);
    case And(l, r) => FlatOperandsPlaced(l); FlatOperandsPlaced(r);
    case Or(l, r) => FlatOperandsPlaced(l); FlatOperandsPlaced(r);
    case If(cond, t, f) => FlatOperandsPlaced(cond); BodyPlaced(t); FlatOperandsPlaced(f);
    case Block(b) => BodyPlaced(b);
    case Loop(b) => BodyPlaced(b);
    case Call(f, args) => FlatOperandsPlaced(f); FlatArgsPlaced(args);
    case _ =>
  }

  lemma {:induction false} BodyPlaced(b: Body)
    requires FlatOperandsBody(b)
    ensures PlacedBody(b)
    decreases b
  {
    match b
    case Done =>
    case Result(e) => FlatOperandsPlaced(e);
    case Let(_, init, rest) => FlatOperandsPlaced(init); BodyPlaced(rest);
    case Then(s, rest) => StmtPlaced(s); BodyPlaced(rest);
  }

  lemma {:induction false} StmtPlaced(s: Stmt)
    requires FlatOperandsStmt(s)
    ensures PlacedStmt(s)
    decreases s
  {
    match s
    case Discard(e) => FlatOperandsPlaced(e);
    case While(cond, body) => FlatOperandsPlaced(cond); BodyPlaced(body);
    case Break(value) => if value.Some? { FlatOperandsPlaced(value.value); }
    case Continue =>
    case Return(e) => FlatOperandsPlaced(e);
  }

  lemma {:induction false} ScriptPlaced(p: Script)
    requires FlatOperandsScript(p)
    ensures PlacedScript(p)
    decreases p
  {
    match p
    case End =>
    case Define(_, init, next) => FlatOperandsPlaced(init); ScriptPlaced(next);
    case Run(s, next) => StmtPlaced(s); ScriptPlaced(next);
  }

  // ----- programs -----

  predicate FlatOperandsIn(prog: Program) {
    FlatOperandsScript(prog.main) && forall f :: 0 <= f < |prog.defs| ==> FlatOperandsBody(prog.defs[f].body)
  }

  predicate LegalProgram(prog: Program, globals: set<string>) {
    LegalScript(prog.main, globals) && forall f :: 0 <= f < |prog.defs| ==> LegalFunction(prog.defs[f], globals)
  }

  predicate FitsProgram(prog: Program) {
    && FitsScript(prog.main) && ScriptBytes(prog.main) + 1 < 0x100_0000
    && forall f :: 0 <= f < |prog.defs| ==> FitsFunction(prog.defs[f])
  }

  /** At most 256 constants in each function and in the script. */
  predicate FewConstantsIn(prog: Program) {
    ScriptConstants(prog.main) <= 256 && forall f :: 0 <= f < |prog.defs| ==> BodyConstants(prog.defs[f].body) <= 256
  }
}
