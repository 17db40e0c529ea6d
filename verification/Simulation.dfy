/** Compiler correctness: the code emitted for a tree, run from any stack, does exactly
    what the evaluator says and ends just past itself. */
module Simulation {
  import opened Bytecode
  import opened Values
  import opened Syntax
  import opened Evaluator
  import opened Codegen
  import opened CodeFacts
  import opened M = Machine
  import opened Relation

  /** Where the compiler and the machine are when a tree begins. */
  datatype Spot = Spot(names: seq<string>, k: seq<Value>, pos: nat, vals: seq<Value>, w: World, s: VM)

  /** The code of a tree is in place, and the tree may stand where it stands. */
  ghost predicate LoadedExpr(site: Site, c: Ctx, e: Expr, names: seq<string>, k: seq<Value>, pos: nat) {
    && GenExpr(e, names, k, c, pos).ok
    && Situated(site, c, pos, GenExpr(e, names, k, c, pos).code, GenExpr(e, names, k, c, pos).consts)
    && Placed(e) && Fits(site, c, |names|, Height(e), NoLet(e), NoExit(e))
  }

  /** The machine stands where a tree with these locals begins. */
  ghost predicate Standing(site: Site, p: Spot) {
    && Compiled(site.prog, site.img, site.globals)
    && |p.names| == |p.vals|
    && At(site, p.s, p.pos, p.vals, [], p.w)
  }

  ghost predicate ReadyExpr(site: Site, c: Ctx, e: Expr, p: Spot) {
    LoadedExpr(site, c, e, p.names, p.k, p.pos) && Standing(site, p)
  }

  ghost predicate Realises(site: Site, c: Ctx, g: Gen, p: Spot, n: nat, o: Outcome, fuel: nat, leavesValue: bool) {
    Simulates(site, c, p.s, n, o, fuel, p.pos + Size(g.code), leavesValue)
  }

  /** The spot after a part that ran normally to `t`. */
  function After(p: Spot, g: Gen, o: Outcome, t: VM): Spot
    requires o.Normal?
  {
    Spot(p.names, g.consts, p.pos + Size(g.code), o.locals, o.world, t)
  }

  /** The first part of some code, and the rest. */
  lemma Split(site: Site, c: Ctx, pos: nat, g: Gen, rest: seq<Instr>, consts: seq<Value>)
    requires Situated(site, c, pos, g.code + rest, consts) && g.consts <= consts
    ensures Situated(site, c, pos, g.code, g.consts)
    ensures Situated(site, c, pos + Size(g.code), rest, consts)
    ensures Size(g.code + rest) == Size(g.code) + Size(rest)
  {
    hide Situated;
    hide Size;
    SituatedSplit(site, c, pos, g.code, rest, consts);
    FewerConsts(site, c, pos, g.code, consts, g.consts);
  }

  // ----- last instructions of a tree -----

  lemma FinishBinary(site: Site, c: Ctx, pos: nat, op: BinaryOp, consts: seq<Value>, s: VM, n: nat,
                     vals: seq<Value>, a: Value, b: Value, w: World, fuel: nat)
    requires Reaches(site.Under(a), s, n, pos, vals, [b], w)
    requires Situated(site, c, pos, One(BinaryOpcode(op)), consts)
    ensures Simulates(site, c, s, n + 1, FromResult(ApplyBinary(site.img.fl, op, a, b), vals, w), fuel, pos + 1, true)
    ensures Size(One(BinaryOpcode(op))) == 1
  {
    hide At;
    hide Situated;
    hide Simulates;
    hide M.Run;
    hide FromResult;
    var t := M.Run(site.img, s, n).vm;
    Resume(site, t, pos, vals, a, [b], w);
    assert [a] + [b] == [a, b];
    RunBinary(site, c, pos, op, consts, t, vals, a, b, w, fuel);
    Chain(site, c, s, n, t, 1, FromResult(ApplyBinary(site.img.fl, op, a, b), vals, w), fuel, pos + 1, true);
  }

  lemma FinishUnary(site: Site, c: Ctx, pos: nat, op: UnaryOp, consts: seq<Value>, s: VM, n: nat,
                    vals: seq<Value>, a: Value, w: World, fuel: nat)
    requires Reaches(site, s, n, pos, vals, [a], w)
    requires Situated(site, c, pos, One(UnaryOpcode(op)), consts)
    ensures Simulates(site, c, s, n + 1, FromResult(ApplyUnary(site.img.fl, op, a), vals, w), fuel, pos + 1, true)
    ensures Size(One(UnaryOpcode(op))) == 1
  {
    hide At;
    hide Situated;
    hide Simulates;
    hide M.Run;
    hide FromResult;
    var t := M.Run(site.img, s, n).vm;
    RunUnary(site, c, pos, op, consts, t, vals, a, w, fuel);
    Chain(site, c, s, n, t, 1, FromResult(ApplyUnary(site.img.fl, op, a), vals, w), fuel, pos + 1, true);
  }

  lemma FinishStore(site: Site, c: Ctx, pos: nat, name: string, names: seq<string>, k: seq<Value>, s: VM, n: nat,
                    vals: seq<Value>, v: Value, w: World, fuel: nat)
    requires |names| == |vals|
    requires GenVariable(SET_LOCAL, SET_GLOBAL, name, names, k, c).ok
    requires Situated(site, c, pos, GenVariable(SET_LOCAL, SET_GLOBAL, name, names, k, c).code, k)
    requires Reaches(site, s, n, pos, vals, [v], w)
    ensures Simulates(site, c, s, n + 1, StoreVariable(name, v, names, vals, w), fuel,
                      pos + Size(GenVariable(SET_LOCAL, SET_GLOBAL, name, names, k, c).code), true)
  {
    hide At;
    hide Situated;
    hide Simulates;
    hide M.Run;
    hide GenVariable;
    hide StoreVariable;
    hide Size;
    var t := M.Run(site.img, s, n).vm;
    RunSetVariable(site, c, pos, name, names, k, t, vals, v, w, fuel);
    Chain(site, c, s, n, t, 1, StoreVariable(name, v, names, vals, w), fuel,
          pos + Size(GenVariable(SET_LOCAL, SET_GLOBAL, name, names, k, c).code), true);
  }

  // ----- control instructions after a part that has run -----

  lemma ThenPop(site: Site, c: Ctx, pos: nat, consts: seq<Value>, s: VM, n: nat, vals: seq<Value>, v: Value, w: World)
    requires Reaches(site, s, n, pos, vals, [v], w)
    requires Situated(site, c, pos, One(POP), consts)
    ensures Reaches(site, s, n + 1, pos + 1, vals, [], w)
    ensures Size(One(POP)) == 1
  {
    hide At;
    hide Situated;
    hide M.Run;
    var t := M.Run(site.img, s, n).vm;
    RunPop(site, c, pos, consts, t, vals, v, w);
    ReachesThen(site, s, n, t, 1, pos + 1, vals, [], w);
  }

  lemma ThenJump(site: Site, c: Ctx, pos: nat, d: nat, consts: seq<Value>, s: VM, n: nat, vals: seq<Value>, top: seq<Value>, w: World)
    requires d <= MAX_JUMP
    requires Reaches(site, s, n, pos, vals, top, w)
    requires Situated(site, c, pos, [Plain(JUMP, d)], consts)
    ensures Reaches(site, s, n + 1, pos + 3 + d, vals, top, w)
    ensures Size([Plain(JUMP, d)]) == 3
  {
    hide At;
    hide Situated;
    hide M.Run;
    var t := M.Run(site.img, s, n).vm;
    RunJump(site, c, pos, d, consts, t, vals, top, w);
    ReachesThen(site, s, n, t, 1, pos + 3 + d, vals, top, w);
  }

  lemma ThenLoop(site: Site, c: Ctx, pos: nat, d: nat, consts: seq<Value>, s: VM, n: nat, vals: seq<Value>, top: seq<Value>, w: World)
    requires d <= MAX_JUMP && d <= pos + 3
    requires Reaches(site, s, n, pos, vals, top, w)
    requires Situated(site, c, pos, [Plain(LOOP, d)], consts)
    ensures Reaches(site, s, n + 1, pos + 3 - d, vals, top, w)
    ensures Size([Plain(LOOP, d)]) == 3
  {
    hide At;
    hide Situated;
    hide M.Run;
    var t := M.Run(site.img, s, n).vm;
    RunLoop(site, c, pos, d, consts, t, vals, top, w);
    ReachesThen(site, s, n, t, 1, pos + 3 - d, vals, top, w);
  }

  /** A conditional jump, and the pop of the condition where it is not taken. */
  lemma ThenBranch(site: Site, c: Ctx, pos: nat, d: nat, rest: seq<Instr>, consts: seq<Value>, s: VM, n: nat, vals: seq<Value>, v: Value, w: World) returns (m: nat)
    requires d <= MAX_JUMP
    requires Reaches(site, s, n, pos, vals, [v], w)
    requires Situated(site, c, pos, [Plain(JUMP_IF_FALSE, d)] + One(POP) + rest, consts)
    ensures m > n
    ensures v.IsFalsey() ==> Reaches(site, s, m, pos + 3 + d, vals, [v], w)
    ensures !v.IsFalsey() ==> Reaches(site, s, m, pos + 4, vals, [], w)
    ensures Situated(site, c, pos + 4, rest, consts)
    ensures Size([Plain(JUMP_IF_FALSE, d)] + One(POP) + rest) == 4 + Size(rest)
  {
    hide At;
    hide Situated;
    hide M.Run;
    hide Size;
    hide Value.IsFalsey;
    var jump := [Plain(JUMP_IF_FALSE, d)];
    SituatedSplit(site, c, pos, jump + One(POP), rest, consts);
    SituatedSplit(site, c, pos, jump, One(POP), consts);
    var t := M.Run(site.img, s, n).vm;
    RunJumpIfFalse(site, c, pos, d, consts, t, vals, v, w);
    m := n + 1;
    assert Size(One(POP)) == 1 by { OneSize(POP); }
    if v.IsFalsey() {
      ReachesThen(site, s, n, t, 1, pos + 3 + d, vals, [v], w);
    } else {
      ReachesThen(site, s, n, t, 1, pos + 3, vals, [v], w);
      ThenPop(site, c, pos + 3, consts, s, m, vals, v, w);
      m := n + 2;
    }
  }

  /** The two jumps of an `or`: on a true operand past the rest, else pop it and go on. */
  lemma ThenOr(site: Site, c: Ctx, pos: nat, d: nat, rest: seq<Instr>, consts: seq<Value>, s: VM, n: nat, vals: seq<Value>, v: Value, w: World) returns (m: nat)
    requires d <= MAX_JUMP
    requires Reaches(site, s, n, pos, vals, [v], w)
    requires Situated(site, c, pos, [Plain(JUMP_IF_FALSE, 3)] + [Plain(JUMP, d)] + One(POP) + rest, consts)
    ensures m > n
    ensures !v.IsFalsey() ==> Reaches(site, s, m, pos + 6 + d, vals, [v], w)
    ensures v.IsFalsey() ==> Reaches(site, s, m, pos + 7, vals, [], w)
  {
    hide At;
    hide Situated;
    hide M.Run;
    hide Size;
    hide Value.IsFalsey;
    var test, skip := [Plain(JUMP_IF_FALSE, 3)], [Plain(JUMP, d)];
    SituatedSplit(site, c, pos, test + skip + One(POP), rest, consts);
    SituatedSplit(site, c, pos, test + skip, One(POP), consts);
    SituatedSplit(site, c, pos, test, skip, consts);
    SizeOfPlain(JUMP_IF_FALSE, 3);
    SizeOfPlain(JUMP, d);
    var t := M.Run(site.img, s, n).vm;
    RunJumpIfFalse(site, c, pos, 3, consts, t, vals, v, w);
    m := n + 2;
    if v.IsFalsey() {
      ReachesThen(site, s, n, t, 1, pos + 6, vals, [v], w);
      ThenPop(site, c, pos + 6, consts, s, n + 1, vals, v, w);
    } else {
      ReachesThen(site, s, n, t, 1, pos + 3, vals, [v], w);
      ThenJump(site, c, pos + 3, d, consts, s, n + 1, vals, [v], w);
    }
  }

  // ----- expressions -----

  lemma SimExpr(site: Site, c: Ctx, fuel: nat, e: Expr, p: Spot) returns (n: nat)
    requires ReadyExpr(site, c, e, p)
    ensures Realises(site, c, GenExpr(e, p.names, p.k, c, p.pos), p, n,
                     EvalExpr(site.Defs(), fuel, e, p.names, p.vals, p.w), fuel, true)
    decreases fuel, e, 2
  {
    hide GenExpr;
    hide EvalExpr;
    hide ReadyExpr;
    hide Realises;
    hide Fits;
    match e
    case Literal(_) => n := SimLiteral(site, c, fuel, e, p);
    case Variable(_) => n := SimVariable(site, c, fuel, e, p);
    case Assign(_, _) => n := SimAssign(site, c, fuel, e, p);
    case Unary(_, _) => n := SimUnary(site, c, fuel, e, p);
    case Binary(_, _, _) => n := SimBinary(site, c, fuel, e, p);
    case And(_, _) => n := SimAnd(site, c, fuel, e, p);
    case Or(_, _) => n := SimAnd(site, c, fuel, e, p);
    case If(_, _, _) => n := SimIf(site, c, fuel, e, p);
    case Block(_) => n := SimBlockExpr(site, c, fuel, e, p);
    case Loop(_) => n := SimLoop(site, c, fuel, e, p);
    case Call(_, _) => n := SimCall(site, c, fuel, e, p);
    case Fn(_) => n := SimFn(site, c, fuel, e, p);
  }

  /** An expression after `n` steps that led to where it begins. */
  lemma SimNext(site: Site, c: Ctx, fuel: nat, e: Expr, p: Spot, s: VM, n: nat) returns (m: nat)
    requires M.Run(site.img, s, n) == Running(p.s)
    requires ReadyExpr(site, c, e, p)
    ensures m >= n
    ensures EvalExpr(site.Defs(), fuel, e, p.names, p.vals, p.w).OutOfFuel? ==> m >= n + fuel
    ensures Simulates(site, c, s, m, EvalExpr(site.Defs(), fuel, e, p.names, p.vals, p.w), fuel,
                      p.pos + Size(GenExpr(e, p.names, p.k, c, p.pos).code), true)
    decreases fuel, e, 3
  {
    hide GenExpr;
    hide EvalExpr;
    hide Fits;
    hide Size;
    hide M.Run;
    hide At;
    hide Situated;
    hide Compiled;
    m := SimExpr(site, c, fuel, e, p);
    Chain(site, c, s, n, p.s, m, EvalExpr(site.Defs(), fuel, e, p.names, p.vals, p.w), fuel,
          p.pos + Size(GenExpr(e, p.names, p.k, c, p.pos).code), true);
    m := n + m;
  }

  lemma SimLiteral(site: Site, c: Ctx, fuel: nat, e: Expr, p: Spot) returns (n: nat)
    requires e.Literal?
    requires ReadyExpr(site, c, e, p)
    ensures Realises(site, c, GenExpr(e, p.names, p.k, c, p.pos), p, n,
                     EvalExpr(site.Defs(), fuel, e, p.names, p.vals, p.w), fuel, true)
  {
    hide At;
    hide Situated;
    hide Compiled;
    hide M.Run;
    hide Encodable;
    hide OperandWidth;
    hide GenLiteral;
    hide Size;
    n := 1;
    var g := GenLiteral(p.k, e.value);
    LiteralFacts(e.value, p.k);
    var ins := g.code[0];
    assert g.code == [Plain(ins.op, ins.operand)];
    RunPush(site, c, p.pos, ins.op, ins.operand, g.consts, p.s, p.vals, e.value, p.w);
  }

  lemma LiteralFacts(v: Value, k: seq<Value>)
    ensures
      var g := GenLiteral(k, v);
      && |g.code| == 1 && g.code[0].Plain?
      && var op, i := g.code[0].op, g.code[0].operand;
      && (|| (op == NIL && v == Nil) || (op == TRUE && v == Bool(true)) || (op == FALSE && v == Bool(false))
          || (op in {CONSTANT, CONSTANT_LONG} && i < |g.consts| && g.consts[i] == v))
      && (g.ok ==> Encodable(g.code[0]))
  {
    PowersOf256();
    hide AddConstant;
  }

  lemma SimVariable(site: Site, c: Ctx, fuel: nat, e: Expr, p: Spot) returns (n: nat)
    requires e.Variable?
    requires ReadyExpr(site, c, e, p)
    ensures Realises(site, c, GenExpr(e, p.names, p.k, c, p.pos), p, n,
                     EvalExpr(site.Defs(), fuel, e, p.names, p.vals, p.w), fuel, true)
  {
    hide At;
    hide Situated;
    hide Compiled;
    hide M.Run;
    hide EvalVariable;
    n := 1;
    RunGetVariable(site, c, p.pos, e.name, p.names, p.k, p.s, p.vals, p.w, fuel);
  }

  lemma SimAssign(site: Site, c: Ctx, fuel: nat, e: Expr, p: Spot) returns (n: nat)
    requires e.Assign?
    requires ReadyExpr(site, c, e, p)
    ensures Realises(site, c, GenExpr(e, p.names, p.k, c, p.pos), p, n,
                     EvalExpr(site.Defs(), fuel, e, p.names, p.vals, p.w), fuel, true)
    decreases fuel, e, 1
  {
    hide At;
    hide Situated;
    hide Compiled;
    hide M.Run;
    hide GenVariable;
    hide StoreVariable;
    hide Size;
    var r := GenExpr(e.rhs, p.names, p.k, c, p.pos);
    var st := GenVariable(SET_LOCAL, SET_GLOBAL, e.name, p.names, r.consts, c);
    assert st.consts == r.consts by { VariableConsts(e.name, p.names, r.consts, c); }
    Split(site, c, p.pos, r, st.code, r.consts);
    n := SimExpr(site, c, fuel, e.rhs, p);
    var o := EvalExpr(site.Defs(), fuel, e.rhs, p.names, p.vals, p.w);
    if o.Normal? {
      FinishStore(site, c, p.pos + Size(r.code), e.name, p.names, r.consts, p.s, n, o.locals, o.value, o.world, fuel);
      n := n + 1;
    }
  }

  lemma VariableConsts(name: string, names: seq<string>, k: seq<Value>, c: Ctx)
    ensures GenVariable(SET_LOCAL, SET_GLOBAL, name, names, k, c).consts == k
  {
  }

  lemma SimUnary(site: Site, c: Ctx, fuel: nat, e: Expr, p: Spot) returns (n: nat)
    requires e.Unary?
    requires ReadyExpr(site, c, e, p)
    ensures Realises(site, c, GenExpr(e, p.names, p.k, c, p.pos), p, n,
                     EvalExpr(site.Defs(), fuel, e, p.names, p.vals, p.w), fuel, true)
    decreases fuel, e, 1
  {
    hide At;
    hide Situated;
    hide Compiled;
    hide M.Run;
    hide UnaryOpcode;
    hide ApplyUnary;
    hide Size;
    var r := GenExpr(e.arg, p.names, p.k, c, p.pos);
    Split(site, c, p.pos, r, One(UnaryOpcode(e.uop)), r.consts);
    n := SimExpr(site, c, fuel, e.arg, p);
    var o := EvalExpr(site.Defs(), fuel, e.arg, p.names, p.vals, p.w);
    if o.Normal? {
      FinishUnary(site, c, p.pos + Size(r.code), e.uop, r.consts, p.s, n, o.locals, o.value, o.world, fuel);
      n := n + 1;
    }
  }

  lemma BinaryLayout(site: Site, c: Ctx, e: Expr, names: seq<string>, k: seq<Value>, pos: nat, l: Gen, r: Gen, v: Value)
    requires e.Binary?
    requires l == GenExpr(e.left, names, k, c, pos)
    requires r == GenExpr(e.right, names, l.consts, c, pos + Size(l.code))
    requires LoadedExpr(site, c, e, names, k, pos)
    ensures LoadedExpr(site, c, e.left, names, k, pos)
    ensures LoadedExpr(site.Under(v), c, e.right, names, l.consts, pos + Size(l.code))
    ensures Situated(site, c, pos + Size(l.code) + Size(r.code), One(BinaryOpcode(e.bop)), r.consts)
    ensures Size(GenExpr(e, names, k, c, pos).code) == Size(l.code) + Size(r.code) + Size(One(BinaryOpcode(e.bop)))
  {
    hide Situated;
    hide Size;
    hide GenExpr;
    hide BinaryOpcode;
    var last := One(BinaryOpcode(e.bop));
    BinaryCode(e, names, k, c, pos, l, r);
    assert l.code + r.code + last == l.code + (r.code + last);
    Split(site, c, pos, l, r.code + last, r.consts);
    Split(site, c, pos + Size(l.code), r, last, r.consts);
    SituatedUnder(site, c, pos + Size(l.code), r.code, r.consts, v);
  }

  lemma SimBinary(site: Site, c: Ctx, fuel: nat, e: Expr, p: Spot) returns (n: nat)
    requires e.Binary?
    requires ReadyExpr(site, c, e, p)
    ensures Realises(site, c, GenExpr(e, p.names, p.k, c, p.pos), p, n,
                     EvalExpr(site.Defs(), fuel, e, p.names, p.vals, p.w), fuel, true)
    decreases fuel, e, 1
  {
    hide At;
    hide Situated;
    hide Compiled;
    hide M.Run;
    hide BinaryOpcode;
    hide ApplyBinary;
    hide Size;
    hide GenExpr;
    hide LoadedExpr;
    var l := GenExpr(e.left, p.names, p.k, c, p.pos);
    var r := GenExpr(e.right, p.names, l.consts, c, p.pos + Size(l.code));
    var ol := EvalExpr(site.Defs(), fuel, e.left, p.names, p.vals, p.w);
    BinaryLayout(site, c, e, p.names, p.k, p.pos, l, r, if ol.Normal? then ol.value else Nil);
    n := SimExpr(site, c, fuel, e.left, p);
    if ol.Normal? {
      var p', site' := After(p, l, ol, M.Run(site.img, p.s, n).vm), site.Under(ol.value);
      Suspend(site, p'.s, p'.pos, ol.locals, ol.value, ol.world);
      var or, end := EvalExpr(site.Defs(), fuel, e.right, p.names, ol.locals, ol.world), p'.pos + Size(r.code);
      n := SimNext(site', c, fuel, e.right, p', p.s, n);
      if or.Normal? {
        FinishBinary(site, c, end, e.bop, r.consts, p.s, n, or.locals, ol.value, or.value, or.world, fuel);
        n := n + 1;
      } else {
        Cut(site', site.pend, c, p.s, n, or, fuel, end, end + Size(One(BinaryOpcode(e.bop))), true, true);
      }
    }
  }

  // ----- and, or -----

  lemma AndLayout(site: Site, c: Ctx, e: Expr, names: seq<string>, k: seq<Value>, pos: nat, q: AndParts)
    requires (e.And? || e.Or?) && q == PartsOfAnd(e, names, k, c, pos)
    requires LoadedExpr(site, c, e, names, k, pos)
    ensures q.d <= MAX_JUMP
    ensures LoadedExpr(site, c, e.left, names, k, pos)
    ensures Situated(site, c, q.mid, q.glue + q.right.code, q.right.consts)
    ensures LoadedExpr(site, c, e.right, names, q.left.consts, q.mid + q.glueSize)
    ensures pos + Size(GenExpr(e, names, k, c, pos).code) == q.mid + q.glueSize + Size(q.right.code)
  {
    hide GenExpr;
    hide Situated;
    hide Size;
    if e.And? { AndCode(e, names, k, c, pos, q); } else { OrCode(e, names, k, c, pos, q); }
    GlueSize(e, names, k, c, pos, q);
    assert q.left.code + q.glue + q.right.code == q.left.code + (q.glue + q.right.code);
    Split(site, c, pos, q.left, q.glue + q.right.code, q.right.consts);
    SituatedSplit(site, c, q.mid, q.glue, q.right.code, q.right.consts);
  }

  lemma SimAnd(site: Site, c: Ctx, fuel: nat, e: Expr, p: Spot) returns (n: nat)
    requires e.And? || e.Or?
    requires ReadyExpr(site, c, e, p)
    ensures Realises(site, c, GenExpr(e, p.names, p.k, c, p.pos), p, n,
                     EvalExpr(site.Defs(), fuel, e, p.names, p.vals, p.w), fuel, true)
    decreases fuel, e, 1
  {
    hide At;
    hide Situated;
    hide Compiled;
    hide M.Run;
    hide Size;
    hide Value.IsFalsey;
    hide LoadedExpr;
    hide GenExpr;
    var q := PartsOfAnd(e, p.names, p.k, c, p.pos);
    AndLayout(site, c, e, p.names, p.k, p.pos, q);
    n := SimExpr(site, c, fuel, e.left, p);
    var ol := EvalExpr(site.Defs(), fuel, e.left, p.names, p.vals, p.w);
    if ol.Normal? {
      if e.And? {
        n := ThenBranch(site, c, q.mid, q.d, q.right.code, q.right.consts, p.s, n, ol.locals, ol.value, ol.world);
      } else {
        n := ThenOr(site, c, q.mid, q.d, q.right.code, q.right.consts, p.s, n, ol.locals, ol.value, ol.world);
      }
      if ol.value.IsFalsey() == e.Or? {
        n := SimNext(site, c, fuel, e.right, Spot(p.names, q.left.consts, q.mid + q.glueSize, ol.locals, ol.world, M.Run(site.img, p.s, n).vm), p.s, n);
      }
    }
  }

  // ----- if -----

  ghost predicate LoadedBlock(site: Site, c: Ctx, b: Body, names: seq<string>, k: seq<Value>, pos: nat) {
    && GenBlock(b, names, k, c, pos).ok
    && Situated(site, c, pos, GenBlock(b, names, k, c, pos).code, GenBlock(b, names, k, c, pos).consts)
    && PlacedBody(b) && Fits(site, c, |names|, HeightBody(b), NoLetBody(b), NoExitBody(b))
  }

  lemma IfLayout(site: Site, c: Ctx, e: Expr, names: seq<string>, k: seq<Value>, pos: nat, q: IfParts)
    requires e.If? && q == PartsOfIf(e, names, k, c, pos)
    requires LoadedExpr(site, c, e, names, k, pos)
    ensures q.dt <= MAX_JUMP && q.df <= MAX_JUMP
    ensures LoadedExpr(site, c, e.cond, names, k, pos)
    ensures Situated(site, c, q.mid, [Plain(JUMP_IF_FALSE, q.dt)] + One(POP) + q.thn.code, q.els.consts)
    ensures LoadedBlock(site, c, e.thenBody, names, q.cond.consts, q.mid + 4)
    ensures Situated(site, c, q.mid + q.dt, [Plain(JUMP, q.df)], q.els.consts)
    ensures Situated(site, c, q.mid + 3 + q.dt, One(POP), q.els.consts)
    ensures LoadedExpr(site, c, e.elseExpr, names, q.thn.consts, q.mid + 4 + q.dt)
    ensures pos + Size(GenExpr(e, names, k, c, pos).code) == q.mid + 3 + q.dt + q.df
  {
    hide Situated;
    hide Size;
    hide GenExpr;
    hide GenBlock;
    IfCode(e, names, k, c, pos, q);
    Regroup(q.cond.code, [Plain(JUMP_IF_FALSE, q.dt)], One(POP), q.thn.code, [Plain(JUMP, q.df)], One(POP), q.els.code);
    var jump, branch := [Plain(JUMP, q.df)], [Plain(JUMP_IF_FALSE, q.dt)] + One(POP);
    var tail := jump + One(POP) + q.els.code;
    Split(site, c, pos, q.cond, branch + q.thn.code + tail, q.els.consts);
    SituatedSplit(site, c, q.mid, branch + q.thn.code, tail, q.els.consts);
    BranchSize(q.dt);
    SituatedSplit(site, c, q.mid, branch, q.thn.code, q.els.consts);
    FewerConsts(site, c, q.mid + 4, q.thn.code, q.els.consts, q.thn.consts);
    SizeOfPlain(JUMP, q.df);
    OneSize(POP);
    SituatedSplit(site, c, q.mid + q.dt, jump + One(POP), q.els.code, q.els.consts);
    SituatedSplit(site, c, q.mid + q.dt, jump, One(POP), q.els.consts);
  }

  lemma SimIf(site: Site, c: Ctx, fuel: nat, e: Expr, p: Spot) returns (n: nat)
    requires e.If?
    requires ReadyExpr(site, c, e, p)
    ensures Realises(site, c, GenExpr(e, p.names, p.k, c, p.pos), p, n,
                     EvalExpr(site.Defs(), fuel, e, p.names, p.vals, p.w), fuel, true)
    decreases fuel, e, 1
  {
    hide At;
    hide Situated;
    hide Compiled;
    hide M.Run;
    hide Size;
    hide Value.IsFalsey;
    hide LoadedExpr;
    hide LoadedBlock;
    hide GenExpr;
    hide GenBlock;
    hide Outcome.Leave;
    var q := PartsOfIf(e, p.names, p.k, c, p.pos);
    IfLayout(site, c, e, p.names, p.k, p.pos, q);
    n := SimExpr(site, c, fuel, e.cond, p);
    var ol := EvalExpr(site.Defs(), fuel, e.cond, p.names, p.vals, p.w);
    if ol.Normal? {
      n := ThenBranch(site, c, q.mid, q.dt, q.thn.code, q.els.consts, p.s, n, ol.locals, ol.value, ol.world);
      if ol.value.IsFalsey() {
        ThenPop(site, c, q.mid + 3 + q.dt, q.els.consts, p.s, n, ol.locals, ol.value, ol.world);
        n := SimNext(site, c, fuel, e.elseExpr, Spot(p.names, q.thn.consts, q.mid + 4 + q.dt, ol.locals, ol.world, M.Run(site.img, p.s, n + 1).vm), p.s, n + 1);
      } else {
        var p' := Spot(p.names, q.cond.consts, q.mid + 4, ol.locals, ol.world, M.Run(site.img, p.s, n).vm);
        n := SimThen(site, c, fuel, e.thenBody, p', p.s, n, q.df, q.els.consts);
      }
    }
  }

  /** The body of an `if`, then the jump past the other branch. */
  lemma SimThen(site: Site, c: Ctx, fuel: nat, b: Body, p: Spot, s: VM, n: nat, d: nat, consts: seq<Value>) returns (m: nat)
    requires d <= MAX_JUMP
    requires M.Run(site.img, s, n) == Running(p.s)
    requires LoadedBlock(site, c, b, p.names, p.k, p.pos) && Standing(site, p)
    requires Situated(site, c, p.pos + Size(GenBlock(b, p.names, p.k, c, p.pos).code), [Plain(JUMP, d)], consts)
    ensures m >= n
    ensures Simulates(site, c, s, m, EvalBody(site.Defs(), fuel, b, p.names, p.vals, p.w).Leave(|p.vals|), fuel,
                      p.pos + Size(GenBlock(b, p.names, p.k, c, p.pos).code) + 3 + d, true)
    decreases fuel, b, 3
  {
    hide At;
    hide Situated;
    hide Compiled;
    hide M.Run;
    hide Size;
    hide GenBlock;
    hide EvalBody;
    hide LoadedBlock;
    m := SimBlock(site, c, fuel, b, p);
    var o := EvalBody(site.Defs(), fuel, b, p.names, p.vals, p.w).Leave(|p.vals|);
    var end := p.pos + Size(GenBlock(b, p.names, p.k, c, p.pos).code);
    Chain(site, c, s, n, p.s, m, o, fuel, end, true);
    m := n + m;
    if o.Normal? {
      ThenJump(site, c, end, d, consts, s, m, o.locals, [o.value], o.world);
      m := m + 1;
    }
  }

  // ----- blocks -----

  ghost predicate LoadedBody(site: Site, c: Ctx, b: Body, names: seq<string>, k: seq<Value>, pos: nat) {
    && GenBody(b, names, k, c, pos).ok
    && Situated(site, c, pos, GenBody(b, names, k, c, pos).code, GenBody(b, names, k, c, pos).consts)
    && PlacedBody(b) && Fits(site, c, |names|, HeightBody(b), NoLetBody(b), NoExitBody(b))
  }

  lemma SimBlock(site: Site, c: Ctx, fuel: nat, b: Body, p: Spot) returns (n: nat)
    requires LoadedBlock(site, c, b, p.names, p.k, p.pos) && Standing(site, p)
    ensures Realises(site, c, GenBlock(b, p.names, p.k, c, p.pos), p, n,
                     EvalBody(site.Defs(), fuel, b, p.names, p.vals, p.w).Leave(|p.vals|), fuel, true)
    decreases fuel, b, 2
  {
    hide At;
    hide Situated;
    hide Compiled;
    hide M.Run;
    hide Size;
    hide GenBody;
    hide EvalBody;
    hide EndScope;
    var c' := c.(scopeStart := |p.names|);
    var g := GenBody(b, p.names, p.k, c', p.pos);
    Split(site, c, p.pos, g, EndScope(LetCount(b)), g.consts);
    assert Situated(site, c', p.pos, g.code, g.consts) by { SameLoop(site, c, c', p.pos, g.code, g.consts); }
    n := SimBody(site, c', fuel, b, p);
    var o := EvalBody(site.Defs(), fuel, b, p.names, p.vals, p.w);
    if o.Normal? {
      if LetCount(b) > 0 { LetsCounted(b); }
      var t := M.Run(site.img, p.s, n).vm;
      var m := RunEndScope(site, c, p.pos + Size(g.code), LetCount(b), g.consts, t, o.locals, o.value, o.world);
      ReachesThen(site, p.s, n, t, m, p.pos + Size(g.code) + Size(EndScope(LetCount(b))), o.locals[..|p.vals|], [o.value], o.world);
      n := n + m;
    }
  }

  lemma {:induction false} LetsCounted(b: Body)
    requires LetCount(b) > 0
    ensures !NoLetBody(b)
  {
    if b.Then? { LetsCounted(b.rest); }
  }

  lemma SameLoop(site: Site, c: Ctx, c': Ctx, pos: nat, code: seq<Instr>, consts: seq<Value>)
    requires c' == c.(scopeStart := c'.scopeStart)
    requires Situated(site, c, pos, code, consts)
    ensures Situated(site, c', pos, code, consts)
  {
    hide Loaded;
    hide Size;
  }

  lemma SimBlockExpr(site: Site, c: Ctx, fuel: nat, e: Expr, p: Spot) returns (n: nat)
    requires e.Block?
    requires ReadyExpr(site, c, e, p)
    ensures Realises(site, c, GenExpr(e, p.names, p.k, c, p.pos), p, n,
                     EvalExpr(site.Defs(), fuel, e, p.names, p.vals, p.w), fuel, true)
    decreases fuel, e, 1
  {
    hide At;
    hide Situated;
    hide Compiled;
    hide M.Run;
    hide Size;
    hide GenBlock;
    hide EvalBody;
    n := SimBlock(site, c, fuel, e.body, p);
  }

  /** A body after `n` steps that led to where it begins. */
  lemma SimRest(site: Site, c: Ctx, fuel: nat, b: Body, p: Spot, s: VM, n: nat) returns (m: nat)
    requires M.Run(site.img, s, n) == Running(p.s)
    requires LoadedBody(site, c, b, p.names, p.k, p.pos) && Standing(site, p)
    ensures m >= n
    ensures Simulates(site, c, s, m, EvalBody(site.Defs(), fuel, b, p.names, p.vals, p.w), fuel,
                      p.pos + Size(GenBody(b, p.names, p.k, c, p.pos).code), true)
    decreases fuel, b, 2
  {
    hide GenBody;
    hide EvalBody;
    hide LoadedBody;
    hide Simulates;
    hide Size;
    hide M.Run;
    hide At;
    hide Compiled;
    m := SimBody(site, c, fuel, b, p);
    Chain(site, c, s, n, p.s, m, EvalBody(site.Defs(), fuel, b, p.names, p.vals, p.w), fuel,
          p.pos + Size(GenBody(b, p.names, p.k, c, p.pos).code), true);
    m := n + m;
  }

  lemma SimBody(site: Site, c: Ctx, fuel: nat, b: Body, p: Spot) returns (n: nat)
    requires LoadedBody(site, c, b, p.names, p.k, p.pos) && Standing(site, p)
    ensures Realises(site, c, GenBody(b, p.names, p.k, c, p.pos), p, n,
                     EvalBody(site.Defs(), fuel, b, p.names, p.vals, p.w), fuel, true)
    decreases fuel, b, 1
  {
    hide At;
    hide Situated;
    hide Compiled;
    hide M.Run;
    hide Size;
    match b
    case Done => n := 1;
      assert Encodable(Plain(NIL, 0));
      OneSize(NIL);
      RunPush(site, c, p.pos, NIL, 0, p.k, p.s, p.vals, Nil, p.w);
    case Result(e) => n := SimExpr(site, c, fuel, e, p);
    case Let(_, _, _) => n := SimLet(site, c, fuel, b, p);
    case Then(_, _) => n := SimSeq(site, c, fuel, b, p);
  }

  lemma LetLayout(site: Site, c: Ctx, b: Body, names: seq<string>, k: seq<Value>, pos: nat, i: Gen, r: Gen)
    requires b.Let?
    requires i == GenExpr(b.init, names, k, c, pos)
    requires r == GenBody(b.rest, names + [b.name], i.consts, c, pos + Size(i.code))
    requires LoadedBody(site, c, b, names, k, pos)
    ensures site.pend == []
    ensures LoadedExpr(site, c, b.init, names, k, pos)
    ensures LoadedBody(site, c, b.rest, names + [b.name], i.consts, pos + Size(i.code))
    ensures Size(GenBody(b, names, k, c, pos).code) == Size(i.code) + Size(r.code)
  {
    hide Situated;
    hide Size;
    hide GenExpr;
    Split(site, c, pos, i, r.code, r.consts);
  }

  lemma SimLet(site: Site, c: Ctx, fuel: nat, b: Body, p: Spot) returns (n: nat)
    requires b.Let?
    requires LoadedBody(site, c, b, p.names, p.k, p.pos) && Standing(site, p)
    ensures Realises(site, c, GenBody(b, p.names, p.k, c, p.pos), p, n,
                     EvalBody(site.Defs(), fuel, b, p.names, p.vals, p.w), fuel, true)
    decreases fuel, b, 0
  {
    hide At;
    hide Situated;
    hide Compiled;
    hide M.Run;
    hide Size;
    hide GenExpr;
    hide GenBody;
    hide EvalExpr;
    hide LoadedExpr;
    hide LoadedBody;
    var i := GenExpr(b.init, p.names, p.k, c, p.pos);
    var r := GenBody(b.rest, p.names + [b.name], i.consts, c, p.pos + Size(i.code));
    LetLayout(site, c, b, p.names, p.k, p.pos, i, r);
    n := SimExpr(site, c, fuel, b.init, p);
    var o := EvalExpr(site.Defs(), fuel, b.init, p.names, p.vals, p.w);
    if o.Normal? {
      var t := M.Run(site.img, p.s, n).vm;
      DeclareLocal(site, t, p.pos + Size(i.code), o.locals, o.value, o.world);
      n := SimRest(site, c, fuel, b.rest, Spot(p.names + [b.name], i.consts, p.pos + Size(i.code), o.locals + [o.value], o.world, t), p.s, n);
    }
  }

  ghost predicate LoadedStmt(site: Site, c: Ctx, s: Stmt, names: seq<string>, k: seq<Value>, pos: nat) {
    && GenStmt(s, names, k, c, pos).ok
    && Situated(site, c, pos, GenStmt(s, names, k, c, pos).code, GenStmt(s, names, k, c, pos).consts)
    && PlacedStmt(s) && Fits(site, c, |names|, HeightStmt(s), NoLetStmt(s), NoExitStmt(s))
  }

  lemma SimSeq(site: Site, c: Ctx, fuel: nat, b: Body, p: Spot) returns (n: nat)
    requires b.Then?
    requires LoadedBody(site, c, b, p.names, p.k, p.pos) && Standing(site, p)
    ensures Realises(site, c, GenBody(b, p.names, p.k, c, p.pos), p, n,
                     EvalBody(site.Defs(), fuel, b, p.names, p.vals, p.w), fuel, true)
    decreases fuel, b, 0
  {
    hide At;
    hide Situated;
    hide Compiled;
    hide M.Run;
    hide Size;
    hide GenStmt;
    hide EvalStmt;
    var i := GenStmt(b.s, p.names, p.k, c, p.pos);
    var r := GenBody(b.rest, p.names, i.consts, c, p.pos + Size(i.code));
    Split(site, c, p.pos, i, r.code, r.consts);
    n := SimStmt(site, c, fuel, b.s, p);
    var o := EvalStmt(site.Defs(), fuel, b.s, p.names, p.vals, p.w);
    if o.Normal? {
      n := SimRest(site, c, fuel, b.rest, Spot(p.names, i.consts, p.pos + Size(i.code), o.locals, o.world, M.Run(site.img, p.s, n).vm), p.s, n);
    }
  }

  // ----- statements -----

  lemma SimStmt(site: Site, c: Ctx, fuel: nat, s: Stmt, p: Spot) returns (n: nat)
    requires LoadedStmt(site, c, s, p.names, p.k, p.pos) && Standing(site, p)
    ensures Realises(site, c, GenStmt(s, p.names, p.k, c, p.pos), p, n,
                     EvalStmt(site.Defs(), fuel, s, p.names, p.vals, p.w), fuel, false)
    decreases fuel, s, 2
  {
    hide GenStmt;
    hide EvalStmt;
    hide LoadedStmt;
    hide Standing;
    hide Realises;
    match s
    case Discard(_) => n := SimDiscard(site, c, fuel, s, p);
    case While(_, _) => n := SimWhile(site, c, fuel, s, p);
    case Break(_) => n := SimBreak(site, c, fuel, s, p);
    case Continue => n := SimContinue(site, c, fuel, s, p);
    case Return(_) => n := SimReturn(site, c, fuel, s, p);
  }

  lemma SimDiscard(site: Site, c: Ctx, fuel: nat, s: Stmt, p: Spot) returns (n: nat)
    requires s.Discard?
    requires LoadedStmt(site, c, s, p.names, p.k, p.pos) && Standing(site, p)
    ensures Realises(site, c, GenStmt(s, p.names, p.k, c, p.pos), p, n,
                     EvalStmt(site.Defs(), fuel, s, p.names, p.vals, p.w), fuel, false)
    decreases fuel, s, 1
  {
    hide At;
    hide Situated;
    hide Compiled;
    hide M.Run;
    hide Size;
    var r := GenExpr(s.e, p.names, p.k, c, p.pos);
    Split(site, c, p.pos, r, One(POP), r.consts);
    n := SimExpr(site, c, fuel, s.e, p);
    var o := EvalExpr(site.Defs(), fuel, s.e, p.names, p.vals, p.w);
    if o.Normal? {
      ThenPop(site, c, p.pos + Size(r.code), r.consts, p.s, n, o.locals, o.value, o.world);
      n := n + 1;
    }
  }

  lemma SimReturn(site: Site, c: Ctx, fuel: nat, s: Stmt, p: Spot) returns (n: nat)
    requires s.Return?
    requires LoadedStmt(site, c, s, p.names, p.k, p.pos) && Standing(site, p)
    ensures Realises(site, c, GenStmt(s, p.names, p.k, c, p.pos), p, n,
                     EvalStmt(site.Defs(), fuel, s, p.names, p.vals, p.w), fuel, false)
    decreases fuel, s, 1
  {
    hide At;
    hide Compiled;
    hide M.Run;
    hide Size;
    hide Loaded;
    var r := GenExpr(s.e, p.names, p.k, c, p.pos);
    Split(site, c, p.pos, r, One(RETURN), r.consts);
    n := SimExpr(site, c, fuel, s.e, p);
    var o := EvalExpr(site.Defs(), fuel, s.e, p.names, p.vals, p.w);
    if o.Normal? {
      ThenReturn(site, c, p.pos + Size(r.code), r.consts, p.s, n, o.locals, o.value, o.world);
      n := n + 1;
    }
  }

  lemma ThenReturn(site: Site, c: Ctx, pos: nat, consts: seq<Value>, s: VM, n: nat, vals: seq<Value>, v: Value, w: World)
    requires site.frames != []
    requires Reaches(site, s, n, pos, vals, [v], w)
    requires Situated(site, c, pos, One(RETURN), consts)
    ensures M.Run(site.img, s, n + 1).Running? && BackIn(site, M.Run(site.img, s, n + 1).vm, v, w)
  {
    hide At;
    hide Situated;
    hide M.Run;
    hide BackIn;
    var t := M.Run(site.img, s, n).vm;
    RunReturn(site, c, pos, consts, t, vals, v, w);
    RunAppend(site.img, s, n, t, 1);
  }

  // ----- leaving and repeating loops -----

  lemma SimBreak(site: Site, c: Ctx, fuel: nat, s: Stmt, p: Spot) returns (n: nat)
    requires s.Break?
    requires LoadedStmt(site, c, s, p.names, p.k, p.pos) && Standing(site, p)
    ensures Realises(site, c, GenStmt(s, p.names, p.k, c, p.pos), p, n,
                     EvalStmt(site.Defs(), fuel, s, p.names, p.vals, p.w), fuel, false)
    decreases fuel, s, 1
  {
    hide At;
    hide Situated;
    hide Compiled;
    hide M.Run;
    hide Size;
    hide Pops;
    hide LoadedStmt;
    hide GenStmt;
    if c.loop.InLoop? && c.loop.isExpr {
      hide EvalStmt;
      hide Simulates;
      n := SimBreakWith(site, c, fuel, s, p);
    } else {
      BreakOutLayout(site, c, s, p.names, p.k, p.pos);
      var k := |p.names| - c.loop.locals;
      RunPops(site, c, p.pos, k, p.k, p.s, p.vals, p.w);
      ThenHole(site, c, p.pos + k, p.k, p.s, k, p.vals[..c.loop.locals], [], p.w);
      n := k + 1;
    }
  }

  lemma BreakOutLayout(site: Site, c: Ctx, s: Stmt, names: seq<string>, k: seq<Value>, pos: nat)
    requires s.Break? && !(c.loop.InLoop? && c.loop.isExpr) && LoadedStmt(site, c, s, names, k, pos)
    ensures c.loop.InLoop? && c.loop.locals <= |names| && site.pend == site.loopPend && s.value.None?
    ensures
      var n := |names| - c.loop.locals;
      && (n > 0 ==> site.pend == [])
      && Situated(site, c, pos, Pops(n), k) && Situated(site, c, pos + Size(Pops(n)), [BreakHole], k)
  {
    hide Situated;
    hide Size;
    hide Pops;
    var n := |names| - c.loop.locals;
    SituatedSplit(site, c, pos, Pops(n), [BreakHole], k);
  }

  function BreakValue(s: Stmt): Expr
    requires s.Break?
  {
    if s.value.Some? then s.value.value else Literal(Nil)
  }

  lemma BreakLayout(site: Site, c: Ctx, s: Stmt, names: seq<string>, k: seq<Value>, pos: nat, r: Gen)
    requires s.Break? && c.loop.InLoop? && c.loop.isExpr
    requires LoadedStmt(site, c, s, names, k, pos) && r == GenExpr(BreakValue(s), names, k, c, pos)
    ensures LoadedExpr(site, c, BreakValue(s), names, k, pos)
    ensures c.loop.locals <= |names| && site.pend == site.loopPend
    ensures
      var n := |names| - c.loop.locals;
      && n < MAX_INDEX && (n > 0 ==> site.pend == [])
      && Situated(site, c, pos + Size(r.code), EndScope(n) + [BreakHole], r.consts)
  {
    hide Situated;
    hide Size;
    hide EndScope;
    hide GenLiteral;
    var n := |names| - c.loop.locals;
    assert r.code + EndScope(n) + [BreakHole] == r.code + (EndScope(n) + [BreakHole]);
    Split(site, c, pos, r, EndScope(n) + [BreakHole], r.consts);
  }

  lemma SimBreakWith(site: Site, c: Ctx, fuel: nat, s: Stmt, p: Spot) returns (n: nat)
    requires s.Break? && c.loop.InLoop? && c.loop.isExpr
    requires LoadedStmt(site, c, s, p.names, p.k, p.pos) && Standing(site, p)
    ensures Realises(site, c, GenStmt(s, p.names, p.k, c, p.pos), p, n,
                     EvalStmt(site.Defs(), fuel, s, p.names, p.vals, p.w), fuel, false)
    decreases fuel, s, 0
  {
    hide At;
    hide Situated;
    hide Compiled;
    hide M.Run;
    hide Size;
    hide LoadedStmt;
    hide LoadedExpr;
    hide GenStmt;
    var e := BreakValue(s);
    var k, r := |p.names| - c.loop.locals, GenExpr(e, p.names, p.k, c, p.pos);
    BreakLayout(site, c, s, p.names, p.k, p.pos, r);
    hide GenExpr;
    if s.value.Some? {
      n := SimExpr(site, c, fuel, e, p);
    } else {
      n := SimLiteral(site, c, fuel, e, p);
    }
    var o := EvalExpr(site.Defs(), fuel, e, p.names, p.vals, p.w);
    if o.Normal? {
      n := ThenBreak(site, c, p.pos + Size(r.code), k, r.consts, p.s, n, o.locals, o.value, o.world);
    }
  }

  lemma ThenHole(site: Site, c: Ctx, pos: nat, consts: seq<Value>, s: VM, n: nat, vals: seq<Value>, top: seq<Value>, w: World)
    requires c.loop.InLoop?
    requires Reaches(site, s, n, pos, vals, top, w)
    requires Situated(site, c, pos, [BreakHole], consts)
    ensures Reaches(site, s, n + 1, site.loopEnd, vals, top, w)
  {
    hide At;
    hide Situated;
    hide M.Run;
    var t := M.Run(site.img, s, n).vm;
    RunHole(site, c, pos, consts, t, vals, top, w);
    ReachesThen(site, s, n, t, 1, site.loopEnd, vals, top, w);
  }

  lemma ThenBreak(site: Site, c: Ctx, pos: nat, k: nat, consts: seq<Value>, s: VM, n: nat, vals: seq<Value>, v: Value, w: World) returns (m: nat)
    requires c.loop.InLoop?
    requires k < MAX_INDEX && k <= |vals| && (k > 0 ==> site.pend == [])
    requires Reaches(site, s, n, pos, vals, [v], w)
    requires Situated(site, c, pos, EndScope(k) + [BreakHole], consts)
    ensures Reaches(site, s, m, site.loopEnd, vals[..|vals| - k], [v], w)
  {
    hide At;
    hide Situated;
    hide M.Run;
    hide EndScope;
    hide Size;
    SituatedSplit(site, c, pos, EndScope(k), [BreakHole], consts);
    var t := M.Run(site.img, s, n).vm;
    m := RunEndScope(site, c, pos, k, consts, t, vals, v, w);
    ReachesThen(site, s, n, t, m, pos + Size(EndScope(k)), vals[..|vals| - k], [v], w);
    ThenHole(site, c, pos + Size(EndScope(k)), consts, s, n + m, vals[..|vals| - k], [v], w);
    m := n + m + 1;
  }

  lemma SimContinue(site: Site, c: Ctx, fuel: nat, s: Stmt, p: Spot) returns (n: nat)
    requires s.Continue?
    requires LoadedStmt(site, c, s, p.names, p.k, p.pos) && Standing(site, p)
    ensures Realises(site, c, GenStmt(s, p.names, p.k, c, p.pos), p, n,
                     EvalStmt(site.Defs(), fuel, s, p.names, p.vals, p.w), fuel, false)
  {
    hide At;
    hide Situated;
    hide Compiled;
    hide M.Run;
    hide Size;
    hide Pops;
    var k := |p.names| - c.loop.locals;
    var d := p.pos + k + 3 - c.loop.start;
    SituatedSplit(site, c, p.pos, Pops(k), [Plain(LOOP, d)], p.k);
    RunPops(site, c, p.pos, k, p.k, p.s, p.vals, p.w);
    ThenLoop(site, c, p.pos + k, d, p.k, p.s, k, p.vals[..c.loop.locals], [], p.w);
    n := k + 1;
  }

  /** A `loop`: its body, then the pop and the jump back. */
  lemma LoopLayout(site: Site, c: Ctx, e: Expr, names: seq<string>, k: seq<Value>, pos: nat, b: Gen, site': Site, c': Ctx)
    requires e.Loop? && c' == c.(loop := InLoop(pos, |names|, true))
    requires b == GenBlock(e.body, names, k, c', pos)
    requires site' == site.(loopPend := site.pend, loopEnd := pos + Size(b.code) + 4)
    requires LoadedExpr(site, c, e, names, k, pos)
    ensures Size(b.code) + 4 <= MAX_JUMP
    ensures LoadedBlock(site', c', e.body, names, k, pos)
    ensures Situated(site', c', pos + Size(b.code), One(POP), b.consts)
    ensures Situated(site', c', pos + Size(b.code) + 1, [Plain(LOOP, Size(b.code) + 4)], b.consts)
    ensures Size(GenExpr(e, names, k, c, pos).code) == Size(b.code) + 4
  {
    hide Situated;
    hide Size;
    hide GenExpr;
    hide GenBlock;
    hide Patch;
    var d := Size(b.code) + 4;
    LoopCode(e, names, k, c, pos, b);
    var inner := b.code + One(POP) + [Plain(LOOP, d)];
    OneSize(POP);
    SizeOfPlain(LOOP, d);
    SizeAppend(b.code, One(POP));
    SizeAppend(b.code + One(POP), [Plain(LOOP, d)]);
    PatchSize(inner, pos, pos + d);
    EnterLoop(site, c, pos, |names|, true, inner, b.consts);
    SituatedSplit(site', c', pos, b.code + One(POP), [Plain(LOOP, d)], b.consts);
    SituatedSplit(site', c', pos, b.code, One(POP), b.consts);
  }

  lemma SimLoop(site: Site, c: Ctx, fuel: nat, e: Expr, p: Spot) returns (n: nat)
    requires e.Loop?
    requires ReadyExpr(site, c, e, p)
    ensures Realises(site, c, GenExpr(e, p.names, p.k, c, p.pos), p, n,
                     EvalExpr(site.Defs(), fuel, e, p.names, p.vals, p.w), fuel, true)
    decreases fuel, e, 1
  {
    hide At;
    hide Situated;
    hide Compiled;
    hide M.Run;
    hide Size;
    hide LoadedExpr;
    hide LoadedBlock;
    hide GenExpr;
    hide GenBlock;
    hide EvalBody;
    var c' := c.(loop := InLoop(p.pos, |p.names|, true));
    var b := GenBlock(e.body, p.names, p.k, c', p.pos);
    var d := Size(b.code) + 4;
    var site' := site.(loopPend := site.pend, loopEnd := p.pos + d);
    LoopLayout(site, c, e, p.names, p.k, p.pos, b, site', c');
    SameStanding(site, site', p.s, p.pos, p.vals, [], p.w);
    n := SimBlock(site', c', fuel, e.body, p);
    var o := EvalBody(site.Defs(), fuel, e.body, p.names, p.vals, p.w);
    var r := M.Run(site.img, p.s, n);
    if o.Broken? {
      SameStanding(site, site', r.vm, p.pos + d, o.locals[..|p.vals|], [o.value], o.world);
    } else if o.Normal? || o.Continued? {
      var vals := o.locals[..|p.vals|];
      if o.Normal? {
        ThenPop(site', c', p.pos + Size(b.code), b.consts, p.s, n, vals, o.value, o.world);
        ThenLoop(site', c', p.pos + Size(b.code) + 1, d, b.consts, p.s, n + 1, vals, [], o.world);
        n := n + 2;
      }
      var t := M.Run(site.img, p.s, n).vm;
      SameStanding(site, site', t, p.pos, vals, [], o.world);
      if fuel > 0 {
        n := SimNext(site, c, fuel - 1, e, Spot(p.names, p.k, p.pos, vals, o.world, t), p.s, n);
      }
    } else {
      LeaveLoop(site, site', c, c', p.s, n, o, fuel, p.pos + d, p.pos + Size(b.code), true, true);
    }
  }

  lemma SameStanding(site: Site, site': Site, s: VM, ip: nat, vals: seq<Value>, top: seq<Value>, w: World)
    requires site' == site.(loopPend := site'.loopPend, loopEnd := site'.loopEnd)
    ensures At(site, s, ip, vals, top, w) <==> At(site', s, ip, vals, top, w)
  {
    hide GlobalsAgree;
  }

  /** The pieces of a `while`, where its body starts, and what surrounds it. */
  datatype WhileParts = WhileParts(cond: Gen, body: Gen, mid: nat, dx: nat, d: nat, c: Ctx, site: Site)

  function PartsOfWhile(site: Site, s: Stmt, names: seq<string>, k: seq<Value>, c: Ctx, pos: nat): WhileParts
    requires s.While?
  {
    var q := PiecesOfWhile(s, names, k, c, pos);
    WhileParts(q.cond, q.body, pos + Size(q.cond.code), q.dx, q.d, c.(loop := InLoop(pos, |names|, false)),
               site.(loopPend := site.pend, loopEnd := pos + q.d + 1))
  }

  function Grouped(q: WhileParts): seq<Instr> {
    q.cond.code + ([Plain(JUMP_IF_FALSE, q.dx)] + One(POP) + q.body.code + (One(POP) + [Plain(LOOP, q.d)] + One(POP)))
  }

  lemma WhileGen(site: Site, s: Stmt, names: seq<string>, k: seq<Value>, c: Ctx, pos: nat, q: WhileParts)
    requires s.While? && q == PartsOfWhile(site, s, names, k, c, pos)
    ensures GenStmt(s, names, k, c, pos).code == Patch(Grouped(q), pos, pos + q.d + 1)
    ensures GenStmt(s, names, k, c, pos).consts == q.body.consts && q.cond.consts <= q.body.consts
    ensures GenStmt(s, names, k, c, pos).ok ==> q.cond.ok && q.body.ok && q.d <= MAX_JUMP
  {
    hide Size;
    hide GenBlock;
    hide Patch;
    WhileCode(s, names, k, c, pos, PiecesOfWhile(s, names, k, c, pos));
    Regroup(q.cond.code, [Plain(JUMP_IF_FALSE, q.dx)], One(POP), q.body.code, One(POP), [Plain(LOOP, q.d)], One(POP));
  }

  lemma WhileSize(q: WhileParts)
    requires q.dx == 5 + Size(q.body.code) && q.d == Size(q.cond.code) + 3 + q.dx
    ensures Size(Grouped(q)) == q.d + 1
    ensures Size([Plain(JUMP_IF_FALSE, q.dx)] + One(POP)) == 4 && Size(One(POP)) == 1 && Size([Plain(LOOP, q.d)]) == 3
  {
    hide Size;
    OneSize(POP);
    SizeOfPlain(LOOP, q.d);
    BranchSize(q.dx);
    var branch, tail := [Plain(JUMP_IF_FALSE, q.dx)] + One(POP), One(POP) + [Plain(LOOP, q.d)] + One(POP);
    SizeAppend(q.cond.code, branch + q.body.code + tail);
    SizeAppend(branch + q.body.code, tail);
    SizeAppend(branch, q.body.code);
    SizeAppend(One(POP) + [Plain(LOOP, q.d)], One(POP));
    SizeAppend(One(POP), [Plain(LOOP, q.d)]);
  }

  lemma WhileLayout(site: Site, c: Ctx, s: Stmt, names: seq<string>, k: seq<Value>, pos: nat, q: WhileParts)
    requires s.While? && q == PartsOfWhile(site, s, names, k, c, pos)
    requires LoadedStmt(site, c, s, names, k, pos)
    ensures q.d <= MAX_JUMP
    ensures LoadedExpr(q.site, q.c, s.cond, names, k, pos)
    ensures Situated(q.site, q.c, q.mid, [Plain(JUMP_IF_FALSE, q.dx)] + One(POP) + q.body.code, q.body.consts)
    ensures LoadedBlock(q.site, q.c, s.body, names, q.cond.consts, q.mid + 4)
    ensures Situated(q.site, q.c, q.mid + 4 + Size(q.body.code), One(POP), q.body.consts)
    ensures Situated(q.site, q.c, q.mid + 5 + Size(q.body.code), [Plain(LOOP, q.d)], q.body.consts)
    ensures Situated(q.site, q.c, q.mid + 3 + q.dx, One(POP), q.body.consts)
    ensures pos + Size(GenStmt(s, names, k, c, pos).code) == q.mid + 4 + q.dx
  {
    hide Situated;
    hide Size;
    hide GenStmt;
    hide GenExpr;
    hide GenBlock;
    hide Patch;
    WhileGen(site, s, names, k, c, pos, q);
    WhileSize(q);
    PatchSize(Grouped(q), pos, pos + q.d + 1);
    EnterLoop(site, c, pos, |names|, false, Grouped(q), q.body.consts);
    var branch, loop := [Plain(JUMP_IF_FALSE, q.dx)] + One(POP), [Plain(LOOP, q.d)];
    var tail := One(POP) + loop + One(POP);
    Split(q.site, q.c, pos, q.cond, branch + q.body.code + tail, q.body.consts);
    SituatedSplit(q.site, q.c, q.mid, branch + q.body.code, tail, q.body.consts);
    SituatedSplit(q.site, q.c, q.mid, branch, q.body.code, q.body.consts);
    var after := q.mid + 4 + Size(q.body.code);
    SituatedSplit(q.site, q.c, after, One(POP) + loop, One(POP), q.body.consts);
    SituatedSplit(q.site, q.c, after, One(POP), loop, q.body.consts);
  }

  lemma SimWhile(site: Site, c: Ctx, fuel: nat, s: Stmt, p: Spot) returns (n: nat)
    requires s.While?
    requires LoadedStmt(site, c, s, p.names, p.k, p.pos) && Standing(site, p)
    ensures Realises(site, c, GenStmt(s, p.names, p.k, c, p.pos), p, n,
                     EvalStmt(site.Defs(), fuel, s, p.names, p.vals, p.w), fuel, false)
    decreases fuel, s, 1
  {
    hide At;
    hide Situated;
    hide Compiled;
    hide M.Run;
    hide Size;
    hide LoadedExpr;
    hide LoadedStmt;
    hide LoadedBlock;
    hide GenExpr;
    hide GenStmt;
    hide GenBlock;
    hide EvalBody;
    hide EvalExpr;
    hide Value.IsFalsey;
    var q := PartsOfWhile(site, s, p.names, p.k, c, p.pos);
    WhileLayout(site, c, s, p.names, p.k, p.pos, q);
    SameStanding(site, q.site, p.s, p.pos, p.vals, [], p.w);
    n := SimExpr(q.site, q.c, fuel, s.cond, p);
    var l := EvalExpr(site.Defs(), fuel, s.cond, p.names, p.vals, p.w);
    var o := l;
    if l.Normal? {
      n := ThenBranch(q.site, q.c, q.mid, q.dx, q.body.code, q.body.consts, p.s, n, l.locals, l.value, l.world);
      if l.value.IsFalsey() {
        ThenPop(q.site, q.c, q.mid + 3 + q.dx, q.body.consts, p.s, n, l.locals, l.value, l.world);
        n := n + 1;
        SameStanding(site, q.site, M.Run(site.img, p.s, n).vm, q.mid + 4 + q.dx, l.locals, [], l.world);
        return;
      }
      o := EvalBody(site.Defs(), fuel, s.body, p.names, l.locals, l.world);
      n := SimIteration(site, c, fuel, s, p, q, l.locals, l.world, n);
    }
    n := AfterIteration(site, c, fuel, s, p, q, o, n);
  }

  /** Running the body of a `while` once, up to the jump back. */
  lemma SimIteration(site: Site, c: Ctx, fuel: nat, s: Stmt, p: Spot, q: WhileParts, vals: seq<Value>, w: World, n: nat) returns (m: nat)
    requires s.While? && q == PartsOfWhile(site, s, p.names, p.k, c, p.pos)
    requires LoadedStmt(site, c, s, p.names, p.k, p.pos) && Standing(site, p)
    requires |vals| == |p.vals| && Reaches(q.site, p.s, n, q.mid + 4, vals, [], w)
    ensures IterationDone(p, q, m, EvalBody(site.Defs(), fuel, s.body, p.names, vals, w), fuel)
    decreases fuel, s, 0
  {
    hide At;
    hide Situated;
    hide Compiled;
    hide M.Run;
    hide Size;
    hide LoadedExpr;
    hide LoadedStmt;
    hide LoadedBlock;
    hide GenExpr;
    hide GenStmt;
    hide GenBlock;
    hide EvalBody;
    WhileLayout(site, c, s, p.names, p.k, p.pos, q);
    var t := M.Run(site.img, p.s, n).vm;
    m := SimBlock(q.site, q.c, fuel, s.body, Spot(p.names, q.cond.consts, q.mid + 4, vals, w, t));
    var o := EvalBody(site.Defs(), fuel, s.body, p.names, vals, w);
    var after := q.mid + 4 + Size(q.body.code);
    Chain(q.site, q.c, p.s, n, t, m, o.Leave(|p.vals|), fuel, after, true);
    m := n + m;
    if o.Normal? {
      ThenPop(q.site, q.c, after, q.body.consts, p.s, m, o.locals[..|p.vals|], o.value, o.world);
      ThenLoop(q.site, q.c, after + 1, q.d, q.body.consts, p.s, m + 1, o.locals[..|p.vals|], [], o.world);
      m := m + 2;
    }
  }

  /** The condition or the body of a `while` is over: at the loop start again if it
      finished or continued, otherwise wherever its outcome leads. */
  ghost predicate IterationDone(p: Spot, q: WhileParts, n: nat, o: Outcome, fuel: nat) {
    if o.Normal? || o.Continued? then
      n >= 1 && |p.vals| <= |o.locals| && Reaches(q.site, p.s, n, p.pos, o.locals[..|p.vals|], [], o.world)
    else Simulates(q.site, q.c, p.s, n, o, fuel, q.mid, true)
  }

  lemma AfterIteration(site: Site, c: Ctx, fuel: nat, s: Stmt, p: Spot, q: WhileParts, o: Outcome, n: nat) returns (m: nat)
    requires s.While? && q == PartsOfWhile(site, s, p.names, p.k, c, p.pos)
    requires LoadedStmt(site, c, s, p.names, p.k, p.pos) && Standing(site, p)
    requires IterationDone(p, q, n, o, fuel)
    ensures
      var next :=
        if o.Broken? then Normal(Nil, o.locals[..|p.vals|], o.world)
        else if o.Normal? || o.Continued? then
          if fuel == 0 then OutOfFuel else EvalStmt(site.Defs(), fuel - 1, s, p.names, o.locals[..|p.vals|], o.world)
        else o;
      Realises(site, c, GenStmt(s, p.names, p.k, c, p.pos), p, m, next, fuel, false)
    decreases fuel, s, 0
  {
    hide At;
    hide Situated;
    hide Compiled;
    hide M.Run;
    hide Size;
    hide LoadedExpr;
    hide LoadedStmt;
    hide LoadedBlock;
    hide GenExpr;
    hide GenStmt;
    hide GenBlock;
    hide EvalStmt;
    WhileLayout(site, c, s, p.names, p.k, p.pos, q);
    m := n;
    var t := M.Run(site.img, p.s, n);
    if o.Broken? {
      SameStanding(site, q.site, t.vm, p.pos + q.d + 1, o.locals[..|p.vals|], [], o.world);
    } else if o.Normal? || o.Continued? {
      var vals := o.locals[..|p.vals|];
      SameStanding(site, q.site, t.vm, p.pos, vals, [], o.world);
      if fuel > 0 {
        m := SimStmt(site, c, fuel - 1, s, Spot(p.names, p.k, p.pos, vals, o.world, t.vm));
        Chain(site, c, p.s, n, t.vm, m, EvalStmt(site.Defs(), fuel - 1, s, p.names, vals, o.world), fuel - 1, q.mid + 4 + q.dx, false);
        m := n + m;
      }
    } else {
      LeaveLoop(site, q.site, c, q.c, p.s, n, o, fuel, q.mid + 4 + q.dx, q.mid, false, true);
    }
  }

  // ----- functions -----

  lemma SimFn(site: Site, c: Ctx, fuel: nat, e: Expr, p: Spot) returns (n: nat)
    requires e.Fn?
    requires ReadyExpr(site, c, e, p)
    ensures Realises(site, c, GenExpr(e, p.names, p.k, c, p.pos), p, n,
                     EvalExpr(site.Defs(), fuel, e, p.names, p.vals, p.w), fuel, true)
  {
    hide At;
    hide Situated;
    hide Compiled;
    hide M.Run;
    hide Size;
    hide AddConstant;
    n := 1;
    var (i, k') := AddConstant(p.k, Function(e.def));
    RunClosure(site, c, p.pos, i, e.def, k', p.s, p.vals, p.w);
  }

  ghost predicate LoadedArgs(site: Site, c: Ctx, args: Args, names: seq<string>, k: seq<Value>, pos: nat) {
    && GenArgs(args, names, k, c, pos).ok
    && Situated(site, c, pos, GenArgs(args, names, k, c, pos).code, GenArgs(args, names, k, c, pos).consts)
    && PlacedArgs(args) && NoLetArgs(args) && NoExitArgs(args)
    && Fits(site, c, |names|, HeightArgs(args), true, true)
  }

  ghost predicate RealisesArgs(site: Site, c: Ctx, s: VM, n: nat, o: ArgsOutcome, fuel: nat, endIp: nat) {
    match o
    case AllArgs(vs, vals, w) => Reaches(site, s, n, endIp, vals, vs, w)
    case Abrupt(o') => !o'.Normal? && Simulates(site, c, s, n, o', fuel, endIp, true)
  }

  lemma ArgsLayout(site: Site, c: Ctx, args: Args, names: seq<string>, k: seq<Value>, pos: nat, f: Gen, r: Gen, v: Value)
    requires args.Arg?
    requires f == GenExpr(args.first, names, k, c, pos)
    requires r == GenArgs(args.rest, names, f.consts, c, pos + Size(f.code))
    requires LoadedArgs(site, c, args, names, k, pos)
    ensures LoadedExpr(site, c, args.first, names, k, pos)
    ensures LoadedArgs(site.Under(v), c, args.rest, names, f.consts, pos + Size(f.code))
    ensures Size(GenArgs(args, names, k, c, pos).code) == Size(f.code) + Size(r.code)
  {
    hide Situated;
    hide Size;
    hide GenExpr;
    Split(site, c, pos, f, r.code, r.consts);
    SituatedUnder(site, c, pos + Size(f.code), r.code, r.consts, v);
  }

  lemma SimArgs(site: Site, c: Ctx, fuel: nat, args: Args, p: Spot) returns (n: nat)
    requires LoadedArgs(site, c, args, p.names, p.k, p.pos) && Standing(site, p)
    ensures RealisesArgs(site, c, p.s, n, EvalArgs(site.Defs(), fuel, args, p.names, p.vals, p.w), fuel,
                         p.pos + Size(GenArgs(args, p.names, p.k, c, p.pos).code))
    decreases fuel, args, 1
  {
    hide At;
    hide Situated;
    hide Compiled;
    hide Size;
    hide LoadedArgs;
    hide LoadedExpr;
    hide GenExpr;
    hide EvalExpr;
    if args.NoArgs? {
      n := 0;
      EmptySize();
    } else {
      hide M.Run;
      hide GenArgs;
      var f := GenExpr(args.first, p.names, p.k, c, p.pos);
      var r := GenArgs(args.rest, p.names, f.consts, c, p.pos + Size(f.code));
      var o := EvalExpr(site.Defs(), fuel, args.first, p.names, p.vals, p.w);
      ArgsLayout(site, c, args, p.names, p.k, p.pos, f, r, if o.Normal? then o.value else Nil);
      n := SimExpr(site, c, fuel, args.first, p);
      if o.Normal? {
        n := SimMoreArgs(site, c, fuel, args.rest, After(p, f, o, M.Run(site.img, p.s, n).vm), o.value, p.s, n);
      }
    }
  }

  /** The remaining arguments, above one that is already on the stack. */
  lemma SimMoreArgs(site: Site, c: Ctx, fuel: nat, args: Args, p: Spot, v: Value, s: VM, n: nat) returns (m: nat)
    requires LoadedArgs(site.Under(v), c, args, p.names, p.k, p.pos)
    requires Compiled(site.prog, site.img, site.globals) && |p.names| == |p.vals|
    requires M.Run(site.img, s, n) == Running(p.s) && At(site, p.s, p.pos, p.vals, [v], p.w)
    ensures
      var o := EvalArgs(site.Defs(), fuel, args, p.names, p.vals, p.w);
      RealisesArgs(site, c, s, m, if o.AllArgs? then AllArgs([v] + o.values, o.locals, o.world) else o, fuel,
                   p.pos + Size(GenArgs(args, p.names, p.k, c, p.pos).code))
    decreases fuel, args, 2
  {
    hide At;
    hide Situated;
    hide Compiled;
    hide M.Run;
    hide Size;
    hide GenArgs;
    hide EvalArgs;
    hide LoadedArgs;
    var end := p.pos + Size(GenArgs(args, p.names, p.k, c, p.pos).code);
    Suspend(site, p.s, p.pos, p.vals, v, p.w);
    m := SimArgs(site.Under(v), c, fuel, args, p);
    var o := EvalArgs(site.Defs(), fuel, args, p.names, p.vals, p.w);
    if o.AllArgs? {
      ReachesThen(site.Under(v), s, n, p.s, m, end, o.locals, o.values, o.world);
      Resume(site, M.Run(site.img, s, n + m).vm, end, o.locals, v, o.values, o.world);
    } else {
      Chain(site.Under(v), c, s, n, p.s, m, o.outcome, fuel, end, true);
      Cut(site.Under(v), site.pend, c, s, n + m, o.outcome, fuel, end, end, true, true);
    }
    m := n + m;
  }

  lemma CallLayout(site: Site, c: Ctx, e: Expr, names: seq<string>, k: seq<Value>, pos: nat, f: Gen, a: Gen, v: Value)
    requires e.Call?
    requires f == GenExpr(e.callee, names, k, c, pos)
    requires a == GenArgs(e.args, names, f.consts, c, pos + Size(f.code))
    requires LoadedExpr(site, c, e, names, k, pos)
    ensures ArgCount(e.args) <= MAX_ARGUMENTS
    ensures LoadedExpr(site, c, e.callee, names, k, pos)
    ensures LoadedArgs(site.Under(v), c, e.args, names, f.consts, pos + Size(f.code))
    ensures Situated(site, c, pos + Size(f.code) + Size(a.code), [Plain(CALL, ArgCount(e.args))], a.consts)
    ensures Size(GenExpr(e, names, k, c, pos).code) == Size(f.code) + Size(a.code) + 2
  {
    hide Situated;
    hide Size;
    hide GenArgs;
    hide GenExpr;
    var last := [Plain(CALL, ArgCount(e.args))];
    CallCode(e, names, k, c, pos, f, a);
    assert f.code + a.code + last == f.code + (a.code + last);
    Split(site, c, pos, f, a.code + last, a.consts);
    SituatedSplit(site, c, pos + Size(f.code), a.code, last, a.consts);
    SituatedUnder(site, c, pos + Size(f.code), a.code, a.consts, v);
    SizeOfPlain(CALL, ArgCount(e.args));
  }

  lemma SimCall(site: Site, c: Ctx, fuel: nat, e: Expr, p: Spot) returns (n: nat)
    requires e.Call?
    requires ReadyExpr(site, c, e, p)
    ensures Realises(site, c, GenExpr(e, p.names, p.k, c, p.pos), p, n,
                     EvalExpr(site.Defs(), fuel, e, p.names, p.vals, p.w), fuel, true)
    decreases fuel, e, 1
  {
    hide At;
    hide Situated;
    hide Compiled;
    hide M.Run;
    hide Size;
    hide LoadedArgs;
    hide LoadedExpr;
    hide GenExpr;
    hide GenArgs;
    hide EvalArgs;
    hide EvalCall;
    var f := GenExpr(e.callee, p.names, p.k, c, p.pos);
    var a := GenArgs(e.args, p.names, f.consts, c, p.pos + Size(f.code));
    var o := EvalExpr(site.Defs(), fuel, e.callee, p.names, p.vals, p.w);
    CallLayout(site, c, e, p.names, p.k, p.pos, f, a, if o.Normal? then o.value else Nil);
    n := SimExpr(site, c, fuel, e.callee, p);
    if o.Normal? {
      n := SimMoreArgs(site, c, fuel, e.args, After(p, f, o, M.Run(site.img, p.s, n).vm), o.value, p.s, n);
      var oa := EvalArgs(site.Defs(), fuel, e.args, p.names, o.locals, o.world);
      if oa.AllArgs? {
        n := SimInvoke(site, c, fuel, e, p.pos + Size(f.code) + Size(a.code), a.consts, o.value, oa.values, oa.locals, oa.world, p.s, n);
      }
    }
  }

  lemma SimInvoke(site: Site, c: Ctx, fuel: nat, e: Expr, pos: nat, consts: seq<Value>, f: Value, args: seq<Value>, vals: seq<Value>, w: World, s: VM, n: nat) returns (m: nat)
    requires |args| <= MAX_ARGUMENTS
    requires Compiled(site.prog, site.img, site.globals)
    requires Situated(site, c, pos, [Plain(CALL, |args|)], consts)
    requires Reaches(site, s, n, pos, vals, [f] + args, w)
    ensures Simulates(site, c, s, m, EvalCall(site.Defs(), fuel, e, f, args, vals, w), fuel, pos + 2, true)
    decreases fuel, e, 0
  {
    hide At;
    hide Situated;
    hide M.Run;
    hide EvalBody;
    hide CompiledFunction;
    hide BackIn;
    var t := M.Run(site.img, s, n).vm;
    RunCall(site, c, pos, consts, t, vals, f, args, w);
    RunAppend(site.img, s, n, t, 1);
    m := n + 1;
    if f.Closure? && f.def < |site.prog.defs| {
      var def, proto := site.prog.defs[f.def], site.img.protos[f.def];
      ArityOf(def, proto, site.globals);
      if |args| == |def.params| && |site.frames| + 1 < MAX_FRAMES && fuel > 0 {
        var room := Max(site.capacity, |site.low| + |vals| + |site.pend| + 1 + |args| + proto.maxSlots);
        var inner := Callee(site, vals, f.def, pos + 2, room);
        var u := M.Run(site.img, s, m).vm;
        var d := SimFunction(inner, fuel - 1, def, f, args, w, u);
        RunAppend(site.img, s, m, u, d);
        m := m + d;
        var o := EvalBody(inner.Defs(), fuel - 1, def.body, [""] + def.params, [f] + args, w);
        if o.Normal? || o.Returned? {
          BackFromCall(site, vals, f.def, pos + 2, room, M.Run(site.img, s, m).vm, o.value, o.world);
        }
      }
    }
  }

  lemma ArityOf(def: FnDef, p: Proto, globals: map<string, nat>)
    requires CompiledFunction(def, p, globals)
    ensures p.arity == |def.params|
  {
    hide GenFunction;
    hide EncodeAll;
  }

  ghost predicate FunctionDone(site: Site, s: VM, n: nat, o: Outcome, fuel: nat) {
    var r := M.Run(site.img, s, n);
    match o
    case Normal(v, _, w) => r.Running? && BackIn(site, r.vm, v, w)
    case Returned(v, w) => r.Running? && BackIn(site, r.vm, v, w)
    case Failed(e) => r == Fault(e)
    case OutOfFuel => n >= fuel && r.Running?
    case _ => false
  }

  /** The code of a function, in a fresh frame. */
  lemma FunctionLayout(site: Site, def: FnDef, g: Gen, c: Ctx)
    requires c == Ctx(site.globals, true, 1, NoLoop)
    requires g == GenBody(def.body, [""] + def.params, [], c, 0)
    requires site.frames != [] && site.pend == []
    requires CompiledFunction(def, site.img.ProtoOf(site.fn), site.globals)
    requires |site.low| + 1 + |def.params| + HeightBody(def.body) <= site.capacity
    ensures LoadedBody(site, c, def.body, [""] + def.params, [], 0)
    ensures Situated(site, c, Size(g.code), One(RETURN), g.consts)
  {
    hide GenBody;
    hide Size;
    var ins := g.code + One(RETURN);
    BodyNoHoles(def.body, [""] + def.params, [], c, 0);
    PatchIdentity(ins, 0, site.loopEnd);
    assert site.Code() == EncodeAll(ins);
    assert Loaded(site.Code(), 0, ins, site.loopEnd) by {
      hide EncodeAll;
      hide Patch;
      assert site.Code()[0..|EncodeAll(ins)|] == EncodeAll(ins);
    }
    hide Loaded;
    assert Situated(site, c, 0, ins, g.consts);
    hide Situated;
    SituatedSplit(site, c, 0, g.code, One(RETURN), g.consts);
  }

  lemma SimFunction(site: Site, fuel: nat, def: FnDef, f: Value, args: seq<Value>, w: World, s: VM) returns (n: nat)
    requires Compiled(site.prog, site.img, site.globals)
    requires CompiledFunction(def, site.img.ProtoOf(site.fn), site.globals)
    requires site.frames != [] && site.pend == [] && |args| == |def.params|
    requires |site.low| + 1 + |def.params| + site.img.ProtoOf(site.fn).maxSlots <= site.capacity
    requires At(site, s, 0, [f] + args, [], w)
    ensures FunctionDone(site, s, n, EvalBody(site.Defs(), fuel, def.body, [""] + def.params, [f] + args, w), fuel)
    decreases fuel, def.body, 2
  {
    hide At;
    hide Situated;
    hide Compiled;
    hide M.Run;
    hide EvalBody;
    hide GenBody;
    hide LoadedBody;
    hide Size;
    hide BackIn;
    var names := [""] + def.params;
    var c := Ctx(site.globals, true, 1, NoLoop);
    var g := GenBody(def.body, names, [], c, 0);
    SlotsOf(def, site.img.ProtoOf(site.fn), site.globals);
    hide CompiledFunction;
    FunctionLayout(site, def, g, c);
    n := SimBody(site, c, fuel, def.body, Spot(names, [], 0, [f] + args, w, s));
    var o := EvalBody(site.Defs(), fuel, def.body, names, [f] + args, w);
    if o.Normal? {
      ThenReturn(site, c, Size(g.code), g.consts, s, n, o.locals, o.value, o.world);
      n := n + 1;
    }
  }

  lemma SlotsOf(def: FnDef, p: Proto, globals: map<string, nat>)
    requires CompiledFunction(def, p, globals)
    ensures HeightBody(def.body) <= p.maxSlots
  {
    hide GenFunction;
    hide EncodeAll;
  }
}
