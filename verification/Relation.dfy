/** What it means for running code to realise an outcome, and what each single
    instruction does to that relation. */
module Relation {
  import opened Bytecode
  import opened Values
  import opened Syntax
  import opened Evaluator
  import opened Codegen
  import opened CodeFacts
  import opened M = Machine

  /** Where a tree runs: the function and its image, the frames below, the stack below
      the frame (`low`), the operands pending above the locals, those that were pending
      when the innermost loop was entered, and where that loop ends. */
  datatype Site = Site(
    prog: Program, img: Image, globals: map<string, nat>,
    fn: nat, frames: seq<Frame>, low: seq<Value>, pend: seq<Value>,
    loopPend: seq<Value>, loopEnd: nat, capacity: nat)
  {
    function Code(): seq<Byte> { img.ProtoOf(fn).code }
    function Consts(): seq<Value> { img.ProtoOf(fn).consts }
    function Defs(): Context { Context(img.fl, prog.defs, |frames| + 1) }
    function Under(v: Value): Site { this.(pend := pend + [v]) }
  }

  ghost predicate GlobalsAgree(indices: map<string, nat>, g: map<string, Value>, a: seq<Option<Value>>) {
    && (forall m, n :: m in indices && n in indices && m != n ==> indices[m] != indices[n])
    && (forall n :: n in indices ==> indices[n] < |a|)
    && (forall n :: n in indices ==> a[indices[n]] == if n in g then Some(g[n]) else None)
  }

  /** The machine stands at `ip` with these locals and, above everything, `top`. */
  ghost predicate At(site: Site, s: VM, ip: nat, vals: seq<Value>, top: seq<Value>, w: World) {
    && s.stack == site.low + vals + site.pend + top
    && s.ip == ip && s.fn == site.fn && s.frames == site.frames && s.base == |site.low|
    && s.capacity >= site.capacity
    && s.serial == w.serial
    && GlobalsAgree(site.globals, w.globals, s.globals)
  }

  /** The emitted code of a tree lies in the function at `pos`. */
  ghost predicate Situated(site: Site, c: Ctx, pos: nat, code: seq<Instr>, consts: seq<Value>) {
    && Loaded(site.Code(), pos, code, site.loopEnd)
    && consts <= site.Consts()
    && c.globals == site.globals
    && (c.inFunction ==> site.frames != [])
    && (c.loop.InLoop? ==> c.loop.start <= pos && pos + Size(code) <= site.loopEnd <= c.loop.start + 0x1_0000)
  }

  /** A `break` or `continue` here would find the stack as the loop entry left it. */
  ghost predicate CanExit(site: Site, c: Ctx, locals: nat) {
    c.loop.InLoop? ==> site.pend == site.loopPend && (site.pend != [] ==> locals == c.loop.locals)
  }

  /** What a tree must satisfy to run here. */
  ghost predicate Fits(site: Site, c: Ctx, locals: nat, height: nat, noLet: bool, noExit: bool) {
    && (site.pend != [] ==> noLet)
    && (noExit || CanExit(site, c, locals))
    && (c.loop.InLoop? ==> c.loop.locals <= locals)
    && |site.low| + locals + |site.pend| + height <= site.capacity
  }

  /** Returned: callee and arguments are gone, the result is on the caller's stack. */
  ghost predicate BackIn(site: Site, s: VM, v: Value, w: World) {
    && site.frames != []
    && var f := site.frames[|site.frames| - 1];
    && s.stack == site.low + [v]
    && s.ip == f.ip && s.fn == f.fn && s.base == f.base && s.frames == site.frames[..|site.frames| - 1]
    && s.capacity >= site.capacity
    && s.serial == w.serial
    && GlobalsAgree(site.globals, w.globals, s.globals)
  }

  /** `n` steps from `s` realise the outcome `o`. */
  ghost predicate Simulates(site: Site, c: Ctx, s: VM, n: nat, o: Outcome, fuel: nat, endIp: nat, leavesValue: bool) {
    var r := M.Run(site.img, s, n);
    match o
    case Normal(v, vals, w) =>
      r.Running? && At(site, r.vm, endIp, vals, if leavesValue then [v] else [], w)
    case Broken(v, vals, w) =>
      && c.loop.InLoop? && c.loop.locals <= |vals| && r.Running?
      && At(site.(pend := site.loopPend), r.vm, site.loopEnd, vals[..c.loop.locals], if c.loop.isExpr then [v] else [], w)
    case Continued(vals, w) =>
      && c.loop.InLoop? && c.loop.locals <= |vals| && r.Running?
      && n >= 1 && At(site.(pend := site.loopPend), r.vm, c.loop.start, vals[..c.loop.locals], [], w)
    case Returned(v, w) => r.Running? && BackIn(site, r.vm, v, w)
    case Failed(e) => r == Fault(e)
    case OutOfFuel => n >= fuel && r.Running?
  }

  /** Every function of the image is compiled from its definition, and its slot
      reservation covers the operand height of its body. */
  ghost predicate Compiled(prog: Program, img: Image, globals: map<string, nat>) {
    && |img.protos| == |prog.defs|
    && forall f :: 0 <= f < |prog.defs| ==> CompiledFunction(prog.defs[f], img.protos[f], globals)
  }

  ghost predicate CompiledFunction(def: FnDef, p: Proto, globals: map<string, nat>) {
    var g := GenFunction(def, globals);
    && g.ok && PlacedBody(def.body)
    && p.code == EncodeAll(g.code) && p.consts == g.consts && p.arity == |def.params|
    && HeightBody(def.body) <= p.maxSlots
  }

  // ----- moving between sites -----

  lemma SituatedSplit(site: Site, c: Ctx, pos: nat, a: seq<Instr>, b: seq<Instr>, consts: seq<Value>)
    requires Situated(site, c, pos, a + b, consts)
    ensures Situated(site, c, pos, a, consts)
    ensures Situated(site, c, pos + Size(a), b, consts)
    ensures Size(a + b) == Size(a) + Size(b)
  {
    hide Loaded;
    hide Size;
    LoadedSplit(site.Code(), pos, a, b, site.loopEnd);
  }

  lemma FewerConsts(site: Site, c: Ctx, pos: nat, code: seq<Instr>, consts: seq<Value>, fewer: seq<Value>)
    requires Situated(site, c, pos, code, consts) && fewer <= consts
    ensures Situated(site, c, pos, code, fewer)
  {
    hide Loaded;
    hide Size;
  }

  lemma SituatedUnder(site: Site, c: Ctx, pos: nat, code: seq<Instr>, consts: seq<Value>, v: Value)
    requires Situated(site, c, pos, code, consts)
    ensures Situated(site.Under(v), c, pos, code, consts)
  {
    hide Loaded;
    hide Size;
  }

  /** A value on top becomes a pending operand. */
  lemma Suspend(site: Site, s: VM, ip: nat, vals: seq<Value>, v: Value, w: World)
    requires At(site, s, ip, vals, [v], w)
    ensures At(site.Under(v), s, ip, vals, [], w)
  {
    hide GlobalsAgree;
    assert site.low + vals + site.pend + [v] == site.low + vals + (site.pend + [v]) + [];
  }

  /** A pending operand is again part of what is on top. */
  lemma Resume(site: Site, s: VM, ip: nat, vals: seq<Value>, v: Value, top: seq<Value>, w: World)
    requires At(site.Under(v), s, ip, vals, top, w)
    ensures At(site, s, ip, vals, [v] + top, w)
  {
    hide GlobalsAgree;
    assert site.low + vals + (site.pend + [v]) + top == site.low + vals + site.pend + ([v] + top);
  }

  /** An unfinished first part decides the outcome of the whole. */
  lemma Cut(site: Site, pend: seq<Value>, c: Ctx, s: VM, n: nat, o: Outcome, fuel: nat, ip: nat, endIp: nat, b: bool, b': bool)
    requires Simulates(site, c, s, n, o, fuel, ip, b) && !o.Normal?
    ensures Simulates(site.(pend := pend), c, s, n, o, fuel, endIp, b')
  {
    hide M.Run;
    hide At;
  }

  /** A first part that ran to `t`, then the rest. */
  lemma Chain(site: Site, c: Ctx, s: VM, n: nat, t: VM, m: nat, o: Outcome, fuel: nat, endIp: nat, b: bool)
    requires M.Run(site.img, s, n) == Running(t)
    requires Simulates(site, c, t, m, o, fuel, endIp, b)
    ensures Simulates(site, c, s, n + m, o, fuel, endIp, b)
  {
    hide At;
    hide M.Run;
    RunAppend(site.img, s, n, t, m);
  }

  // ----- single instructions -----

  /** One plain instruction whose effect is known. */
  lemma StepPlain(site: Site, c: Ctx, pos: nat, op: OpCode, operand: nat, consts: seq<Value>, s: VM)
    requires Encodable(Plain(op, operand))
    requires Situated(site, c, pos, [Plain(op, operand)], consts)
    requires s.fn == site.fn && s.ip == pos
    ensures M.Run(site.img, s, 1) == Exec(site.img, s.(ip := pos + 1 + OperandWidth(op)), Plain(op, operand))
    ensures Size([Plain(op, operand)]) == 1 + OperandWidth(op)
  {
    hide Exec;
    hide M.Run;
    hide CodeAt;
    hide Encodable;
    hide Loaded;
    OneLoaded(site.Code(), pos, op, operand, site.loopEnd);
    StepAt(site.img, s, op, operand);
  }

  /** `n` steps lead from `s` to a state where the machine stands as described. */
  ghost predicate Reaches(site: Site, s: VM, n: nat, ip: nat, vals: seq<Value>, top: seq<Value>, w: World) {
    var r := M.Run(site.img, s, n);
    r.Running? && At(site, r.vm, ip, vals, top, w)
  }

  lemma ReachesThen(site: Site, s: VM, n: nat, t: VM, m: nat, ip: nat, vals: seq<Value>, top: seq<Value>, w: World)
    requires M.Run(site.img, s, n) == Running(t)
    requires Reaches(site, t, m, ip, vals, top, w)
    ensures Reaches(site, s, n + m, ip, vals, top, w)
  {
    hide At;
    hide M.Run;
    RunAppend(site.img, s, n, t, m);
  }

  lemma BinaryExec(img: Image, s: VM, op: BinaryOp)
    requires |s.stack| >= 2
    ensures OperandWidth(BinaryOpcode(op)) == 0
    ensures Encodable(Plain(BinaryOpcode(op), 0))
    ensures Exec(img, s, Plain(BinaryOpcode(op), 0)) == Yield(s, 2, ApplyBinary(img.fl, op, Peek(s, 1), Peek(s, 0)))
  {
    hide ApplyBinary;
  }

  lemma RunBinary(site: Site, c: Ctx, pos: nat, op: BinaryOp, consts: seq<Value>, s: VM,
                  vals: seq<Value>, a: Value, b: Value, w: World, fuel: nat)
    requires Situated(site, c, pos, One(BinaryOpcode(op)), consts)
    requires At(site, s, pos, vals, [a, b], w)
    ensures Simulates(site, c, s, 1, FromResult(ApplyBinary(site.img.fl, op, a, b), vals, w), fuel, pos + 1, true)
    ensures Size(One(BinaryOpcode(op))) == 1
  {
    hide M.Run;
    hide Situated;
    hide GlobalsAgree;
    hide ApplyBinary;
    hide BinaryOpcode;
    hide Exec;
    BinaryExec(site.img, s.(ip := pos + 1), op);
    StepPlain(site, c, pos, BinaryOpcode(op), 0, consts, s);
    var s' := s.(ip := pos + 1);
    assert Peek(s', 1) == a && Peek(s', 0) == b;
    assert s.stack[..|s.stack| - 2] == site.low + vals + site.pend;
  }

  lemma UnaryExec(img: Image, s: VM, op: UnaryOp)
    requires |s.stack| >= 1
    ensures OperandWidth(UnaryOpcode(op)) == 0
    ensures Encodable(Plain(UnaryOpcode(op), 0))
    ensures Exec(img, s, Plain(UnaryOpcode(op), 0)) == Yield(s, 1, ApplyUnary(img.fl, op, Peek(s, 0)))
  {
    hide ApplyUnary;
  }

  lemma RunUnary(site: Site, c: Ctx, pos: nat, op: UnaryOp, consts: seq<Value>, s: VM,
                 vals: seq<Value>, a: Value, w: World, fuel: nat)
    requires Situated(site, c, pos, One(UnaryOpcode(op)), consts)
    requires At(site, s, pos, vals, [a], w)
    ensures Simulates(site, c, s, 1, FromResult(ApplyUnary(site.img.fl, op, a), vals, w), fuel, pos + 1, true)
    ensures Size(One(UnaryOpcode(op))) == 1
  {
    hide M.Run;
    hide Situated;
    hide GlobalsAgree;
    hide ApplyUnary;
    UnaryExec(site.img, s.(ip := pos + 1), op);
    StepPlain(site, c, pos, UnaryOpcode(op), 0, consts, s);
    assert Peek(s.(ip := pos + 1), 0) == a;
    assert s.stack[..|s.stack| - 1] == site.low + vals + site.pend;
  }

  lemma RunPop(site: Site, c: Ctx, pos: nat, consts: seq<Value>, s: VM, vals: seq<Value>, v: Value, w: World)
    requires Situated(site, c, pos, One(POP), consts)
    requires At(site, s, pos, vals, [v], w)
    ensures Reaches(site, s, 1, pos + 1, vals, [], w)
    ensures Size(One(POP)) == 1
  {
    hide M.Run;
    hide Situated;
    hide GlobalsAgree;
    StepPlain(site, c, pos, POP, 0, consts, s);
    assert s.stack[..|s.stack| - 1] == site.low + vals + site.pend + [];
  }

  lemma RunJump(site: Site, c: Ctx, pos: nat, d: nat, consts: seq<Value>, s: VM, vals: seq<Value>, top: seq<Value>, w: World)
    requires d <= MAX_JUMP
    requires Situated(site, c, pos, [Plain(JUMP, d)], consts)
    requires At(site, s, pos, vals, top, w)
    ensures Reaches(site, s, 1, pos + 3 + d, vals, top, w)
    ensures Size([Plain(JUMP, d)]) == 3
  {
    hide M.Run;
    hide Situated;
    hide GlobalsAgree;
    assert Encodable(Plain(JUMP, d)) by { PowersOf256(); }
    StepPlain(site, c, pos, JUMP, d, consts, s);
  }

  lemma RunLoop(site: Site, c: Ctx, pos: nat, d: nat, consts: seq<Value>, s: VM, vals: seq<Value>, top: seq<Value>, w: World)
    requires d <= MAX_JUMP && d <= pos + 3
    requires Situated(site, c, pos, [Plain(LOOP, d)], consts)
    requires At(site, s, pos, vals, top, w)
    ensures Reaches(site, s, 1, pos + 3 - d, vals, top, w)
    ensures Size([Plain(LOOP, d)]) == 3
  {
    hide M.Run;
    hide Situated;
    hide GlobalsAgree;
    assert Encodable(Plain(LOOP, d)) by { PowersOf256(); }
    StepPlain(site, c, pos, LOOP, d, consts, s);
  }

  lemma RunJumpIfFalse(site: Site, c: Ctx, pos: nat, d: nat, consts: seq<Value>, s: VM, vals: seq<Value>, v: Value, w: World)
    requires d <= MAX_JUMP
    requires Situated(site, c, pos, [Plain(JUMP_IF_FALSE, d)], consts)
    requires At(site, s, pos, vals, [v], w)
    ensures Reaches(site, s, 1, if v.IsFalsey() then pos + 3 + d else pos + 3, vals, [v], w)
    ensures Size([Plain(JUMP_IF_FALSE, d)]) == 3
  {
    hide M.Run;
    hide Situated;
    hide GlobalsAgree;
    assert Encodable(Plain(JUMP_IF_FALSE, d)) by { PowersOf256(); }
    StepPlain(site, c, pos, JUMP_IF_FALSE, d, consts, s);
    assert Peek(s, 0) == v;
  }

  /** Instructions that push a known value. */
  lemma RunPush(site: Site, c: Ctx, pos: nat, op: OpCode, operand: nat, consts: seq<Value>, s: VM, vals: seq<Value>, v: Value, w: World)
    requires Situated(site, c, pos, [Plain(op, operand)], consts)
    requires Encodable(Plain(op, operand))
    requires At(site, s, pos, vals, [], w)
    requires |site.low| + |vals| + |site.pend| < site.capacity
    requires
      || (op == NIL && v == Nil) || (op == TRUE && v == Bool(true)) || (op == FALSE && v == Bool(false))
      || (op in {CONSTANT, CONSTANT_LONG} && operand < |consts| && consts[operand] == v)
      || (op in {GET_LOCAL, GET_LOCAL_LONG} && operand < |vals| && vals[operand] == v)
      || (op in {GET_GLOBAL, GET_GLOBAL_LONG} && operand < |s.globals| && s.globals[operand] == Some(v))
    ensures Reaches(site, s, 1, pos + 1 + OperandWidth(op), vals, [v], w)
    ensures Size([Plain(op, operand)]) == 1 + OperandWidth(op)
  {
    hide M.Run;
    hide GlobalsAgree;
    hide Encodable;
    hide OperandWidth;
    hide Loaded;
    StepPlain(site, c, pos, op, operand, consts, s);
    assert s.stack + [v] == site.low + vals + site.pend + [v];
    if op in {GET_LOCAL, GET_LOCAL_LONG} {
      assert s.stack[s.base + operand] == vals[operand];
    }
  }

  lemma RunGetVariable(site: Site, c: Ctx, pos: nat, name: string, names: seq<string>, k: seq<Value>, s: VM, vals: seq<Value>, w: World, fuel: nat)
    requires |names| == |vals|
    requires GenVariable(GET_LOCAL, GET_GLOBAL, name, names, k, c).ok
    requires Situated(site, c, pos, GenVariable(GET_LOCAL, GET_GLOBAL, name, names, k, c).code, k)
    requires At(site, s, pos, vals, [], w)
    requires |site.low| + |vals| + |site.pend| < site.capacity
    ensures Simulates(site, c, s, 1, EvalVariable(name, names, vals, w), fuel,
                      pos + Size(GenVariable(GET_LOCAL, GET_GLOBAL, name, names, k, c).code), true)
  {
    hide M.Run;
    hide Loaded;
    hide Encodable;
    hide OperandWidth;
    hide LongForm;
    hide Size;
    var i := LastIndex(names, name);
    if i >= 0 {
      var ins := VarLength(GET_LOCAL, i);
      VarLengthLocal(i);
      RunPush(site, c, pos, ins.op, ins.operand, k, s, vals, vals[i], w);
    } else {
      var ins := VarLength(GET_GLOBAL, c.globals[name]);
      VarLengthGlobal(c.globals[name]);
      if name in w.globals {
        RunPush(site, c, pos, ins.op, ins.operand, k, s, vals, w.globals[name], w);
      } else {
        StepPlain(site, c, pos, ins.op, ins.operand, k, s);
      }
    }
  }

  lemma VarLengthLocal(i: nat)
    requires i < MAX_INDEX
    ensures forall op <- {VarLength(GET_LOCAL, i), VarLength(SET_LOCAL, i)} :: Encodable(op) && op.operand == i
    ensures VarLength(GET_LOCAL, i).op in {GET_LOCAL, GET_LOCAL_LONG}
    ensures VarLength(SET_LOCAL, i).op in {SET_LOCAL, SET_LOCAL_LONG}
  {
    PowersOf256();
  }

  lemma VarLengthGlobal(i: nat)
    requires i < MAX_INDEX
    ensures forall op <- {VarLength(GET_GLOBAL, i), VarLength(SET_GLOBAL, i), VarLength(DEFINE_GLOBAL, i)} :: Encodable(op) && op.operand == i
    ensures VarLength(GET_GLOBAL, i).op in {GET_GLOBAL, GET_GLOBAL_LONG}
    ensures VarLength(SET_GLOBAL, i).op in {SET_GLOBAL, SET_GLOBAL_LONG}
    ensures VarLength(DEFINE_GLOBAL, i).op in {DEFINE_GLOBAL, DEFINE_GLOBAL_LONG}
  {
    PowersOf256();
  }

  lemma RunSetVariable(site: Site, c: Ctx, pos: nat, name: string, names: seq<string>, k: seq<Value>, s: VM, vals: seq<Value>, v: Value, w: World, fuel: nat)
    requires |names| == |vals|
    requires GenVariable(SET_LOCAL, SET_GLOBAL, name, names, k, c).ok
    requires Situated(site, c, pos, GenVariable(SET_LOCAL, SET_GLOBAL, name, names, k, c).code, k)
    requires At(site, s, pos, vals, [v], w)
    ensures Simulates(site, c, s, 1, StoreVariable(name, v, names, vals, w), fuel,
                      pos + Size(GenVariable(SET_LOCAL, SET_GLOBAL, name, names, k, c).code), true)
  {
    hide M.Run;
    hide Loaded;
    hide Encodable;
    hide OperandWidth;
    hide LongForm;
    hide Size;
    var i := LastIndex(names, name);
    if i >= 0 {
      var ins := VarLength(SET_LOCAL, i);
      VarLengthLocal(i);
      StepPlain(site, c, pos, ins.op, ins.operand, k, s);
      assert s.stack[s.base + i := v] == site.low + vals[i := v] + site.pend + [v];
    } else {
      var ins := VarLength(SET_GLOBAL, c.globals[name]);
      VarLengthGlobal(c.globals[name]);
      StepPlain(site, c, pos, ins.op, ins.operand, k, s);
    }
  }

  lemma RunEndScope(site: Site, c: Ctx, pos: nat, n: nat, consts: seq<Value>, s: VM, vals: seq<Value>, v: Value, w: World) returns (m: nat)
    requires n < MAX_INDEX && n <= |vals| && (n > 0 ==> site.pend == [])
    requires Situated(site, c, pos, EndScope(n), consts)
    requires At(site, s, pos, vals, [v], w)
    ensures Reaches(site, s, m, pos + Size(EndScope(n)), vals[..|vals| - n], [v], w)
  {
    hide Situated;
    hide At;
    hide Size;
    if n == 0 {
      m := 0;
      assert vals[..|vals| - n] == vals;
      EmptySize();
    } else {
      m := 1;
      CloseScope(site, c, pos, n, consts, s, vals, v, w);
    }
  }

  lemma CloseScope(site: Site, c: Ctx, pos: nat, n: nat, consts: seq<Value>, s: VM, vals: seq<Value>, v: Value, w: World)
    requires 0 < n < MAX_INDEX && n <= |vals| && site.pend == []
    requires Situated(site, c, pos, EndScope(n), consts)
    requires At(site, s, pos, vals, [v], w)
    ensures Reaches(site, s, 1, pos + Size(EndScope(n)), vals[..|vals| - n], [v], w)
  {
    hide Situated;
    hide GlobalsAgree;
    hide Size;
    hide M.Run;
    hide Encodable;
    hide OperandWidth;
    hide LongForm;
    var ins := VarLength(END_SCOPE, n);
    VarLengthEndScope(n);
    StepPlain(site, c, pos, ins.op, ins.operand, consts, s);
    assert s.stack[..|s.stack| - n - 1] == site.low + vals[..|vals| - n] + site.pend;
  }

  lemma VarLengthEndScope(n: nat)
    requires n < MAX_INDEX
    ensures Encodable(VarLength(END_SCOPE, n)) && VarLength(END_SCOPE, n).operand == n
    ensures VarLength(END_SCOPE, n).op in {END_SCOPE, END_SCOPE_LONG}
  {
    PowersOf256();
  }


  lemma {:induction false} RunPops(site: Site, c: Ctx, pos: nat, n: nat, consts: seq<Value>, s: VM, vals: seq<Value>, w: World)
    requires n <= |vals| && (n > 0 ==> site.pend == [])
    requires Situated(site, c, pos, Pops(n), consts)
    requires At(site, s, pos, vals, [], w)
    ensures Reaches(site, s, n, pos + n, vals[..|vals| - n], [], w)
    ensures Size(Pops(n)) == n
    decreases n
  {
    hide Situated;
    hide At;
    hide Size;
    hide M.Run;
    if n == 0 {
      assert vals[..|vals| - n] == vals;
      EmptySize();
      assert M.Run(site.img, s, 0) == Running(s) by { RunZero(site.img, s); }
    } else {
      var vals' := vals[..|vals| - 1];
      SituatedSplit(site, c, pos, One(POP), Pops(n - 1), consts);
      LastLocal(site, s, pos, vals, w);
      RunPop(site, c, pos, consts, s, vals', vals[|vals| - 1], w);
      var t := M.Run(site.img, s, 1).vm;
      RunPops(site, c, pos + 1, n - 1, consts, t, vals', w);
      assert vals'[..|vals'| - (n - 1)] == vals[..|vals| - n];
      ReachesThen(site, s, 1, t, n - 1, pos + n, vals[..|vals| - n], [], w);
    }
  }

  lemma RunZero(img: Image, s: VM)
    ensures M.Run(img, s, 0) == Running(s)
  {
  }

  /** With nothing pending, the last local is also what is on top. */
  lemma LastLocal(site: Site, s: VM, pos: nat, vals: seq<Value>, w: World)
    requires vals != [] && site.pend == []
    requires At(site, s, pos, vals, [], w)
    ensures At(site, s, pos, vals[..|vals| - 1], [vals[|vals| - 1]], w)
  {
    hide GlobalsAgree;
    assert vals == vals[..|vals| - 1] + [vals[|vals| - 1]];
  }

  /** With nothing pending, a value on top becomes a new local by being declared. */
  lemma DeclareLocal(site: Site, s: VM, pos: nat, vals: seq<Value>, v: Value, w: World)
    requires site.pend == []
    requires At(site, s, pos, vals, [v], w)
    ensures At(site, s, pos, vals + [v], [], w)
  {
    hide GlobalsAgree;
  }

  lemma RunReturn(site: Site, c: Ctx, pos: nat, consts: seq<Value>, s: VM, vals: seq<Value>, v: Value, w: World)
    requires site.frames != []
    requires Situated(site, c, pos, One(RETURN), consts)
    requires At(site, s, pos, vals, [v], w)
    ensures M.Run(site.img, s, 1).Running? && BackIn(site, M.Run(site.img, s, 1).vm, v, w)
    ensures Size(One(RETURN)) == 1
  {
    hide M.Run;
    hide Situated;
    hide GlobalsAgree;
    StepPlain(site, c, pos, RETURN, 0, consts, s);
    assert s.stack[..s.base] == site.low;
    assert Peek(s.(ip := pos + 1), 0) == v;
  }

  lemma RunDefine(site: Site, c: Ctx, pos: nat, name: string, consts: seq<Value>, s: VM, vals: seq<Value>, v: Value, w: World)
    requires name in c.globals && c.globals[name] < MAX_INDEX
    requires Situated(site, c, pos, [VarLength(DEFINE_GLOBAL, c.globals[name])], consts)
    requires At(site, s, pos, vals, [v], w)
    ensures Reaches(site, s, 1, pos + Size([VarLength(DEFINE_GLOBAL, c.globals[name])]), vals, [],
                    w.(globals := w.globals[name := v]))
  {
    hide M.Run;
    hide Loaded;
    hide Encodable;
    hide OperandWidth;
    hide LongForm;
    hide Size;
    var ins := VarLength(DEFINE_GLOBAL, c.globals[name]);
    VarLengthGlobal(c.globals[name]);
    StepPlain(site, c, pos, ins.op, ins.operand, consts, s);
    assert s.stack[..|s.stack| - 1] == site.low + vals + site.pend + [];
  }

  lemma RunClosure(site: Site, c: Ctx, pos: nat, index: nat, def: nat, consts: seq<Value>, s: VM, vals: seq<Value>, w: World)
    requires index < |consts| && index < MAX_INDEX && consts[index] == Function(def)
    requires Situated(site, c, pos, [MakeClosure(index, [])], consts)
    requires At(site, s, pos, vals, [], w)
    requires |site.low| + |vals| + |site.pend| < site.capacity
    ensures Reaches(site, s, 1, pos + Size([MakeClosure(index, [])]), vals, [Value.Closure(def, w.serial)],
                    w.(serial := w.serial + 1))
  {
    hide GlobalsAgree;
    hide M.Run;
    hide Loaded;
    hide Size;
    ClosureLoaded(site.Code(), pos, index, site.loopEnd);
    StepClosureAt(site.img, s, index);
    assert s.stack + [Value.Closure(def, w.serial)] == site.low + vals + site.pend + [Value.Closure(def, w.serial)];
  }

  lemma ClosureLoaded(code: seq<Byte>, pos: nat, index: nat, end: nat)
    requires Loaded(code, pos, [MakeClosure(index, [])], end)
    ensures CodeAt(code, pos, [MakeClosure(index, [])])
  {
    hide CodeAt;
    hide Encode;
    var ins := [MakeClosure(index, [])];
    assert ins[1..] == [];
    assert Patch(ins, pos, end) == ins;
  }

  /** The frame a call opens: callee and arguments become its first locals. */
  function Callee(site: Site, vals: seq<Value>, def: nat, ip: nat, capacity: nat): Site {
    Site(site.prog, site.img, site.globals, def, site.frames + [Frame(site.fn, ip, |site.low|)],
         site.low + vals + site.pend, [], [], 0, capacity)
  }

  lemma RunCall(site: Site, c: Ctx, pos: nat, consts: seq<Value>, s: VM, vals: seq<Value>, f: Value, args: seq<Value>, w: World)
    requires |args| <= MAX_ARGUMENTS
    requires Situated(site, c, pos, [Plain(CALL, |args|)], consts)
    requires At(site, s, pos, vals, [f] + args, w)
    ensures Size([Plain(CALL, |args|)]) == 2
    ensures
      var protos := site.img.protos;
      var r := M.Run(site.img, s, 1);
      if !f.Closure? || f.def >= |protos| then r == Fault(NotCallable)
      else if |args| != protos[f.def].arity then r == Fault(WrongArgumentCount)
      else if |site.frames| + 1 >= MAX_FRAMES then r == Fault(StackOverflow)
      else
        var room := Max(site.capacity, |site.low| + |vals| + |site.pend| + 1 + |args| + protos[f.def].maxSlots);
        r.Running? && At(Callee(site, vals, f.def, pos + 2, room), r.vm, 0, [f] + args, [], w)
  {
    hide M.Run;
    hide Situated;
    hide GlobalsAgree;
    assert Encodable(Plain(CALL, |args|)) by { PowersOf256(); }
    StepPlain(site, c, pos, CALL, |args|, consts, s);
    var low := site.low + vals + site.pend;
    assert s.stack == low + ([f] + args);
    assert s.stack == low + ([f] + args) + [] + [];
    assert Peek(s.(ip := pos + 2), |args|) == f;
  }

  /** Coming back from the frame a call opened. */
  lemma BackFromCall(site: Site, vals: seq<Value>, def: nat, ip: nat, capacity: nat, t: VM, v: Value, w: World)
    requires BackIn(Callee(site, vals, def, ip, capacity), t, v, w) && capacity >= site.capacity
    ensures At(site, t, ip, vals, [v], w)
  {
    hide GlobalsAgree;
    assert (site.frames + [Frame(site.fn, ip, |site.low|)])[..|site.frames|] == site.frames;
  }

  /** A placeholder, once patched, jumps to the end of its loop. */
  lemma RunHole(site: Site, c: Ctx, pos: nat, consts: seq<Value>, s: VM, vals: seq<Value>, top: seq<Value>, w: World)
    requires c.loop.InLoop?
    requires Situated(site, c, pos, [BreakHole], consts)
    requires At(site, s, pos, vals, top, w)
    ensures Reaches(site, s, 1, site.loopEnd, vals, top, w)
    ensures Size([BreakHole]) == 3
  {
    hide M.Run;
    hide GlobalsAgree;
    var d := site.loopEnd - pos - 3;
    HolePatch(pos, site.loopEnd);
    assert CodeAt(site.Code(), pos, [Plain(JUMP, d)]);
    assert Encodable(Plain(JUMP, d)) by { PowersOf256(); }
    hide Encodable;
    hide CodeAt;
    hide Patch;
    StepAt(site.img, s, JUMP, d);
  }

  lemma HolePatch(pos: nat, end: nat)
    ensures Size([BreakHole]) == 3
    ensures Patch([BreakHole], pos, end) == [Plain(JUMP, JumpDistance(pos, end))]
  {
    EncodeOne(BreakHole);
    HoleSize(pos, end);
    hide Encode;
    var ins := [BreakHole];
    assert ins[1..] == [];
  }

  /** Inside a loop that stands at `pos`, its own patched code is the code to run. */
  lemma EnterLoop(site: Site, c: Ctx, pos: nat, locals: nat, isExpr: bool, inner: seq<Instr>, consts: seq<Value>)
    requires Situated(site, c, pos, Patch(inner, pos, pos + Size(inner)), consts)
    requires Size(inner) <= 0x1_0000
    ensures Situated(site.(loopPend := site.pend, loopEnd := pos + Size(inner)),
                     c.(loop := InLoop(pos, locals, isExpr)), pos, inner, consts)
  {
    hide CodeAt;
    hide Patch;
    PatchTwice(inner, pos, pos + Size(inner), site.loopEnd);
  }

  /** An outcome that no loop intercepts is the same inside and outside of it. */
  lemma LeaveLoop(site: Site, site': Site, c: Ctx, c': Ctx, s: VM, n: nat, o: Outcome, fuel: nat, ip: nat, ip': nat, b: bool, b': bool)
    requires site' == site.(loopPend := site'.loopPend, loopEnd := site'.loopEnd)
    requires !o.Normal? && !o.Broken? && !o.Continued?
    requires Simulates(site', c', s, n, o, fuel, ip', b')
    ensures Simulates(site, c, s, n, o, fuel, ip, b)
  {
    hide M.Run;
    hide GlobalsAgree;
  }
}
