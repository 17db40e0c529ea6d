/** The walk over a finished loop that turns placeholder jumps into real ones. */
module LoopWalk {
  import opened Bytecode
  import opened Values
  import opened Syntax
  import opened Codegen
  import opened CodeFacts

  // ----- patching -----

  /** Overwrites the two operand bytes at `offset`. */
  function Overwrite(code: seq<Byte>, offset: nat, d: nat): seq<Byte>
    requires offset + 2 <= |code|
  {
    code[..offset] + Operand(2, d) + code[offset + 2..]
  }

  lemma OverwriteJump(code: seq<Byte>, before: seq<Instr>, op: OpCode, after: seq<Instr>, d: nat)
    requires OperandWidth(op) == 2
    ensures
      var all := code + EncodeAll(before + [Plain(op, MAX_JUMP)] + after);
      var offset := |code| + Size(before) + 1;
      && offset + 2 <= |all| && |all| - offset - 2 == Size(after)
      && Overwrite(all, offset, d) == code + EncodeAll(before + [Plain(op, d)] + after)
  {
    hide EncodeAll;
    hide Operand;
    hide OpByte;
    hide OperandWidth;
    EncodeAllAppend(before + [Plain(op, MAX_JUMP)], after);
    EncodeAllAppend(before, [Plain(op, MAX_JUMP)]);
    EncodeAllAppend(before + [Plain(op, d)], after);
    EncodeAllAppend(before, [Plain(op, d)]);
    EncodeOne(Plain(op, MAX_JUMP));
    EncodeOne(Plain(op, d));
    var all := code + EncodeAll(before + [Plain(op, MAX_JUMP)] + after);
    var offset := |code| + Size(before) + 1;
    var head := code + EncodeAll(before) + [OpByte(op)];
    assert all == head + Operand(2, MAX_JUMP) + EncodeAll(after);
    assert all[..offset] == head;
    assert all[offset + 2..] == EncodeAll(after);
  }

  // ----- the walk over a finished loop -----

  /** Instructions the walk steps over correctly: a closure must have a short constant
      index, and its function's capture count must be known. */
  ghost predicate Walkable(i: Instr, constants: seq<Value>, captureCount: nat -> nat) {
    match i
    case Plain(op, _) => op !in {END, CLOSURE, CLOSURE_LONG}
    case BreakHole => true
    case MakeClosure(index, captures) =>
      && index < 256 && index < |constants| && constants[index].Function?
      && captureCount(constants[index].def) == |captures|
      && forall c <- captures :: c.index < MAX_INDEX
  }

  /** The first byte of an instruction, and how far the next one is. */
  lemma FirstByte(code: seq<Byte>, pc: nat, i: Instr)
    requires BytesAt(code, pc, Encode(i)) && !i.MakeClosure?
    ensures pc + |Encode(i)| <= |code|
    ensures i.BreakHole? ==> OpOfByte(code[pc]) == Some(END) && |Encode(i)| == 3
    ensures i.Plain? ==> OpOfByte(code[pc]) == Some(i.op) && |Encode(i)| == 1 + OperandWidth(i.op)
  {
    hide OpOfByte;
    hide OpByte;
    hide Operand;
    hide OperandWidth;
    assert code[pc] == code[pc..pc + |Encode(i)|][0];
    if i.Plain? { OpByteRoundTrip(i.op); } else { OpByteRoundTrip(END); }
  }

  lemma OneByte(index: nat)
    requires index < 256
    ensures Operand(1, index) == [index]
  {
    assert Operand(0, index / 256) == [];
  }

  lemma TwoBytes(code: seq<Byte>, pc: nat, head: seq<Byte>)
    requires |head| == 2 && BytesAt(code, pc, head)
    ensures pc + 2 <= |code| && code[pc] == head[0] && code[pc + 1] == head[1]
  {
    assert code[pc] == code[pc..pc + 2][0] && code[pc + 1] == code[pc..pc + 2][1];
  }

  lemma ClosureBytes(code: seq<Byte>, pc: nat, index: nat, captures: seq<Capture>)
    requires index < 256 && BytesAt(code, pc, Encode(MakeClosure(index, captures)))
    ensures OpOfByte(code[pc]) == Some(CLOSURE) && pc + 2 <= |code| && code[pc + 1] == index
    ensures BytesAt(code, pc + 2, EncodeCaptures(captures))
    ensures |Encode(MakeClosure(index, captures))| == 2 + |EncodeCaptures(captures)|
  {
    hide OpOfByte;
    hide OpByte;
    hide EncodeCaptures;
    hide BytesAt;
    OpByteRoundTrip(CLOSURE);
    OneByte(index);
    hide Operand;
    var head := [OpByte(CLOSURE), index as Byte];
    assert Encode(MakeClosure(index, captures)) == head + EncodeCaptures(captures);
    hide Encode;
    BytesAtSplit(code, pc, head, EncodeCaptures(captures));
    TwoBytes(code, pc, head);
  }

  /** A patched prefix and an unpatched rest. */
  function Mixed(pre: seq<Byte>, done: seq<Instr>, rest: seq<Instr>, end: nat): seq<Byte> {
    pre + EncodeAll(Patch(done, |pre|, end)) + EncodeAll(rest)
  }

  /** One more instruction has been walked over. */
  lemma MixedStep(pre: seq<Byte>, done: seq<Instr>, rest: seq<Instr>, end: nat)
    requires rest != []
    ensures
      var at := |pre| + Size(done);
      var head := pre + EncodeAll(Patch(done, |pre|, end));
      && |head| == at && Size(done + [rest[0]]) == Size(done) + |Encode(rest[0])|
      && Mixed(pre, done, rest, end) == head + Encode(rest[0]) + EncodeAll(rest[1..])
      && Mixed(pre, done + [rest[0]], rest[1..], end)
         == head + EncodeAll(Patch([rest[0]], at, end)) + EncodeAll(rest[1..])
  {
    hide Encode;
    hide Patch;
    PatchAppend(done, [rest[0]], |pre|, end);
    PatchSize(done, |pre|, end);
    SizeAppend(done, [rest[0]]);
    EncodeOne(rest[0]);
    EncodeAllAppend(Patch(done, |pre|, end), Patch([rest[0]], |pre| + Size(done), end));
    assert EncodeAll(rest) == Encode(rest[0]) + EncodeAll(rest[1..]);
    hide EncodeAll;
    var head := pre + EncodeAll(Patch(done, |pre|, end));
    assert head + (Encode(rest[0]) + EncodeAll(rest[1..])) == head + Encode(rest[0]) + EncodeAll(rest[1..]);
    assert pre + (EncodeAll(Patch(done, |pre|, end)) + EncodeAll(Patch([rest[0]], |pre| + Size(done), end)))
        == head + EncodeAll(Patch([rest[0]], |pre| + Size(done), end));
  }

  lemma PatchSingle(i: Instr, at: nat, end: nat)
    ensures EncodeAll(Patch([i], at, end)) == if i.BreakHole? then Encode(Plain(JUMP, JumpDistance(at, end))) else Encode(i)
  {
    hide Encode;
    assert [i][1..] == [];
    EncodeOne(Patch([i], at, end)[0]);
    assert Patch([i], at, end) == [Patch([i], at, end)[0]];
  }

  /** Rewriting the opcode and the operand of a placeholder makes it the jump. */
  lemma RewriteHole(head: seq<Byte>, tail: seq<Byte>, at: nat, d: nat)
    requires |head| == at
    ensures |Encode(BreakHole)| == 3
    ensures
      var code := head + Encode(BreakHole) + tail;
      Overwrite(code[at := OpByte(JUMP)], at + 1, d) == head + Encode(Plain(JUMP, d)) + tail
  {
    hide Operand;
    var code := (head + Encode(BreakHole) + tail)[at := OpByte(JUMP)];
    assert code[..at + 1] == head + [OpByte(JUMP)];
    assert code[at + 3..] == tail;
  }

  /** Where the walk goes from an instruction at `at`. It reads the constant index of a
      closure to find its capture count, but always skips one index byte. */
  function WalkNext(code: seq<Byte>, at: nat, constants: seq<Value>, captureCount: nat -> nat): Option<nat> {
    if at >= |code| then None else
    match OpOfByte(code[at])
    case None => None
    case Some(op) =>
      if op == CLOSURE || op == CLOSURE_LONG then
        if at + 1 + OperandWidth(op) > |code| then None else
        var index := ReadOperand(code[at + 1..at + 1 + OperandWidth(op)]);
        if index >= |constants| || !constants[index].Function? then None else
        match DecodeCaptures(code, at + 2, captureCount(constants[index].def))
        case None => None
        case Some((_, next)) => Some(next)
      else Some(at + 1 + OperandWidth(if op == END then JUMP else op))
  }

  /** Over a capture-free closure the walk lands on the next instruction if and only if
      the constant index is short. */
  lemma LongClosureMisread(code: seq<Byte>, at: nat, index: nat, constants: seq<Value>, captureCount: nat -> nat)
    requires BytesAt(code, at, Encode(MakeClosure(index, []))) && index < MAX_INDEX
    requires index < |constants| && constants[index].Function? && captureCount(constants[index].def) == 0
    ensures WalkNext(code, at, constants, captureCount) == Some(at + 2)
    ensures WalkNext(code, at, constants, captureCount) == Some(at + |Encode(MakeClosure(index, []))|) <==> index < 256
  {
    hide WalkNext;
    hide Operand;
    hide ReadOperand;
    hide OpOfByte;
    hide OpByte;
    hide OperandWidth;
    hide Pow256;
    hide BytesAt;
    hide Encode;
    var op := VarLength(CLOSURE, index).op;
    ClosureForm(index, op);
    BareClosure(index, op);
    FetchAt(code, at, op, index);
    WalkAtClosure(code, at, op, index, constants, captureCount);
  }

  /** The code after the walk has taken the byte at `at` for a placeholder. */
  function Rewritten(code: seq<Byte>, at: nat, d: nat): seq<Byte>
    requires at + 3 <= |code|
  {
    Overwrite(code[at := OpByte(JUMP)], at + 1, d)
  }

  /** When the middle byte of a long closure's constant index is the placeholder's opcode,
      the walk takes it for one, and the closure then names another constant. */
  lemma LongClosureRewritten(code: seq<Byte>, at: nat, index: nat, constants: seq<Value>, captureCount: nat -> nat, d: nat)
    requires BytesAt(code, at, Encode(MakeClosure(index, []))) && index < MAX_INDEX && at + 5 <= |code|
    requires index < |constants| && constants[index].Function? && captureCount(constants[index].def) == 0
    requires index / 256 % 256 == OpByte(END) as int
    ensures WalkNext(code, at, constants, captureCount) == Some(at + 2) && OpOfByte(code[at + 2]) == Some(END)
    ensures
      var after := Rewritten(code, at + 2, d);
      OpOfByte(after[at]) == Some(CLOSURE_LONG) && ReadOperand(after[at + 1..at + 4]) != index
  {
    hide WalkNext;
    hide Operand;
    hide ReadOperand;
    hide OpOfByte;
    hide OpByte;
    hide OperandWidth;
    hide Pow256;
    hide BytesAt;
    hide Encode;
    LongClosureMisread(code, at, index, constants, captureCount);
    assert OperandWidth(CLOSURE_LONG) == 3 && index < Pow256(3) by { LongWidth(); }
    assert index >= 256 by { EndByte(); }
    BareClosure(index, CLOSURE_LONG);
    FetchAt(code, at, CLOSURE_LONG, index);
    MiddleByte(code[at + 1..at + 4], index);
    OpByteRoundTrip(END);
    var after := Rewritten(code, at + 2, d);
    assert after[at] == code[at] && after[at + 2] == OpByte(JUMP);
    EndByte();
    if ReadOperand(after[at + 1..at + 4]) == index { MiddleByte(after[at + 1..at + 4], index); }
  }

  lemma LongWidth()
    ensures OperandWidth(CLOSURE_LONG) == 3 && Pow256(3) == MAX_INDEX
  {
    PowersOf256();
  }

  lemma EndByte()
    ensures OpByte(END) != OpByte(JUMP) && OpByte(END) > 0
  {
  }

  lemma MiddleByte(bs: seq<Byte>, index: nat)
    requires |bs| == 3 && ReadOperand(bs) == index
    ensures bs[1] as int == index / 256 % 256
  {
    var mid, last := bs[1..], bs[1..][1..];
    assert last[1..] == [] && ReadOperand(last) == bs[2] as int + 256 * ReadOperand(last[1..]);
    assert ReadOperand(mid) == bs[1] as int + 256 * ReadOperand(last);
    assert index == bs[0] as int + 256 * (bs[1] as int + 256 * bs[2] as int);
  }

  lemma ClosureForm(index: nat, op: OpCode)
    requires op == VarLength(CLOSURE, index).op && index < MAX_INDEX
    ensures op in {CLOSURE, CLOSURE_LONG} && OperandWidth(op) == (if index < 256 then 1 else 3) && index < Pow256(OperandWidth(op))
  {
    PowersOf256();
  }

  lemma WalkAtClosure(code: seq<Byte>, at: nat, op: OpCode, index: nat, constants: seq<Value>, captureCount: nat -> nat)
    requires op in {CLOSURE, CLOSURE_LONG} && at + 1 + OperandWidth(op) <= |code| && OpOfByte(code[at]) == Some(op)
    requires ReadOperand(code[at + 1..at + 1 + OperandWidth(op)]) == index < |constants|
    requires constants[index].Function? && captureCount(constants[index].def) == 0
    ensures WalkNext(code, at, constants, captureCount) == Some(at + 2)
  {
    hide OpOfByte;
    hide ReadOperand;
    hide OperandWidth;
    hide DecodeCapture;
  }

  lemma BareClosure(index: nat, op: OpCode)
    requires op == VarLength(CLOSURE, index).op
    ensures Encode(MakeClosure(index, [])) == [OpByte(op)] + Operand(OperandWidth(op), index)
  {
    hide Operand;
    hide OpByte;
    hide OperandWidth;
    var head := [OpByte(op)] + Operand(OperandWidth(op), index);
    assert head + [] == head;
  }

  // ----- emitted code is walkable -----

  ghost predicate AllWalkable(ins: seq<Instr>, constants: seq<Value>, captureCount: nat -> nat) {
    forall i :: 0 <= i < |ins| ==> Walkable(ins[i], constants, captureCount)
  }

  ghost predicate NothingCaptured(captureCount: nat -> nat) {
    forall d: nat :: captureCount(d) == 0
  }

  lemma WalkableJoins(constants: seq<Value>, captureCount: nat -> nat)
    ensures forall op: OpCode, n: nat :: op !in {END, CLOSURE, CLOSURE_LONG} ==> AllWalkable([Plain(op, n)], constants, captureCount)
    ensures AllWalkable([], constants, captureCount) && AllWalkable([BreakHole], constants, captureCount)
    ensures forall a: seq<Instr>, b: seq<Instr> ::
      AllWalkable(a, constants, captureCount) && AllWalkable(b, constants, captureCount) ==> AllWalkable(a + b, constants, captureCount)
  {
  }

  /** More constants do not matter. */
  lemma WalkableMore(ins: seq<Instr>, constants: seq<Value>, more: seq<Value>, captureCount: nat -> nat)
    requires AllWalkable(ins, constants, captureCount) && constants <= more
    ensures AllWalkable(ins, more, captureCount)
  {
    forall i | 0 <= i < |ins| ensures Walkable(ins[i], more, captureCount) {
      assert Walkable(ins[i], constants, captureCount);
    }
  }

  lemma {:induction false} PatchWalkable(ins: seq<Instr>, pos: nat, end: nat, constants: seq<Value>, captureCount: nat -> nat)
    requires AllWalkable(ins, constants, captureCount)
    ensures AllWalkable(Patch(ins, pos, end), constants, captureCount)
    decreases ins
  {
    hide Encode;
    if ins != [] {
      assert Walkable(ins[0], constants, captureCount);
      assert AllWalkable(ins[1..], constants, captureCount);
      PatchWalkable(ins[1..], pos + |Encode(ins[0])|, end, constants, captureCount);
    }
  }

  lemma {:induction false} ExprWalkable(e: Expr, names: seq<string>, k: seq<Value>, c: Ctx, pos: nat, n: nat -> nat)
    requires c.loop.InLoop? && NothingCaptured(n) && GenExpr(e, names, k, c, pos).aligned
    ensures AllWalkable(GenExpr(e, names, k, c, pos).code, GenExpr(e, names, k, c, pos).consts, n)
    decreases e, 1
  {
    hide Size;
    hide AddConstant;
    hide Patch;
    hide GenBlock;
    hide AllWalkable;
    var g := GenExpr(e, names, k, c, pos);
    WalkableJoins(g.consts, n);
    match e
    case Literal(v) => LiteralWalkable(k, v, n);
    case Variable(name) => VariableWalkable(name, names, k, c, n);
    case Assign(name, rhs) =>
      ExprWalkable(rhs, names, k, c, pos, n);
      VariableWalkable(name, names, GenExpr(rhs, names, k, c, pos).consts, c, n);
    case Unary(op, arg) => ExprWalkable(arg, names, k, c, pos, n);
    case Block(b) => BlockWalkable(b, names, k, c, pos, n);
    case Loop(b) => LoopWalkable(e, names, k, c, pos, n);
    case Fn(def) => ClosureWalkable(AddConstant(k, Function(def)).0, g.consts, n);
    case _ => PartsWalkable(e, names, k, c, pos, n);
  }

  lemma ClosureWalkable(i: nat, k: seq<Value>, n: nat -> nat)
    requires i < 256 && i < |k| && k[i].Function? && NothingCaptured(n)
    ensures AllWalkable([MakeClosure(i, [])], k, n)
  {
  }

  lemma LiteralWalkable(k: seq<Value>, v: Value, n: nat -> nat)
    ensures AllWalkable(GenLiteral(k, v).code, GenLiteral(k, v).consts, n)
  {
    hide AddConstant;
  }

  lemma VariableWalkable(name: string, names: seq<string>, k: seq<Value>, c: Ctx, n: nat -> nat)
    ensures AllWalkable(GenVariable(GET_LOCAL, GET_GLOBAL, name, names, k, c).code, k, n)
    ensures AllWalkable(GenVariable(SET_LOCAL, SET_GLOBAL, name, names, k, c).code, k, n)
  {
  }

  lemma {:induction false} LoopWalkable(e: Expr, names: seq<string>, k: seq<Value>, c: Ctx, pos: nat, n: nat -> nat)
    requires e.Loop? && NothingCaptured(n) && GenExpr(e, names, k, c, pos).aligned
    ensures AllWalkable(GenExpr(e, names, k, c, pos).code, GenExpr(e, names, k, c, pos).consts, n)
    decreases e, 0
  {
    hide Size;
    hide Patch;
    hide GenBlock;
    hide AllWalkable;
    var b := GenBlock(e.body, names, k, c.(loop := InLoop(pos, |names|, true)), pos);
    var d := Size(b.code) + 4;
    LoopCode(e, names, k, c, pos, b);
    LoopInner(e.body, names, k, c, pos, b, n);
    PatchWalkable(b.code + One(POP) + [Plain(LOOP, d)], pos, pos + d, b.consts, n);
  }

  /** The code of a `loop` before its placeholders are patched. */
  lemma {:induction false} LoopInner(body: Body, names: seq<string>, k: seq<Value>, c: Ctx, pos: nat, b: Gen, n: nat -> nat)
    requires b == GenBlock(body, names, k, c.(loop := InLoop(pos, |names|, true)), pos)
    requires NothingCaptured(n) && b.aligned
    ensures AllWalkable(b.code + One(POP) + [Plain(LOOP, Size(b.code) + 4)], b.consts, n)
    decreases body, 2
  {
    hide Size;
    hide GenBlock;
    hide AllWalkable;
    BlockWalkable(body, names, k, c.(loop := InLoop(pos, |names|, true)), pos, n);
    WalkableJoins(b.consts, n);
  }

  lemma {:induction false} PartsWalkable(e: Expr, names: seq<string>, k: seq<Value>, c: Ctx, pos: nat, n: nat -> nat)
    requires e.Binary? || e.And? || e.Or? || e.If? || e.Call?
    requires c.loop.InLoop? && NothingCaptured(n) && GenExpr(e, names, k, c, pos).aligned
    ensures AllWalkable(GenExpr(e, names, k, c, pos).code, GenExpr(e, names, k, c, pos).consts, n)
    decreases e, 0
  {
    hide GenExpr;
    hide Size;
    hide GenBlock;
    hide GenArgs;
    hide BinaryOpcode;
    hide AllWalkable;
    WalkableJoins(GenExpr(e, names, k, c, pos).consts, n);
    if e.If? {
      var q := PartsOfIf(e, names, k, c, pos);
      IfCode(e, names, k, c, pos, q);
      ExprWalkable(e.cond, names, k, c, pos, n);
      BlockWalkable(e.thenBody, names, q.cond.consts, c, q.mid + 4, n);
      ExprWalkable(e.elseExpr, names, q.thn.consts, c, q.mid + 4 + q.dt, n);
      WalkableMore(q.cond.code, q.cond.consts, q.els.consts, n);
      WalkableMore(q.thn.code, q.thn.consts, q.els.consts, n);
    } else if e.Call? {
      var f := GenExpr(e.callee, names, k, c, pos);
      var a := GenArgs(e.args, names, f.consts, c, pos + Size(f.code));
      CallCode(e, names, k, c, pos, f, a);
      ExprWalkable(e.callee, names, k, c, pos, n);
      ArgsWalkable(e.args, names, f.consts, c, pos + Size(f.code), n);
      WalkableMore(f.code, f.consts, a.consts, n);
    } else if e.Binary? {
      var l := GenExpr(e.left, names, k, c, pos);
      var r := GenExpr(e.right, names, l.consts, c, pos + Size(l.code));
      BinaryCode(e, names, k, c, pos, l, r);
      ExprWalkable(e.left, names, k, c, pos, n);
      ExprWalkable(e.right, names, l.consts, c, pos + Size(l.code), n);
      WalkableMore(l.code, l.consts, r.consts, n);
      BinaryWalkable(e.bop);
    } else {
      var q := PartsOfAnd(e, names, k, c, pos);
      if e.And? { AndCode(e, names, k, c, pos, q); } else { OrCode(e, names, k, c, pos, q); }
      ExprWalkable(e.left, names, k, c, pos, n);
      ExprWalkable(e.right, names, q.left.consts, c, q.mid + q.glueSize, n);
      WalkableMore(q.left.code, q.left.consts, q.right.consts, n);
    }
  }

  lemma BinaryWalkable(op: BinaryOp)
    ensures BinaryOpcode(op) !in {END, CLOSURE, CLOSURE_LONG}
  {
  }

  lemma {:induction false} ArgsWalkable(args: Args, names: seq<string>, k: seq<Value>, c: Ctx, pos: nat, n: nat -> nat)
    requires c.loop.InLoop? && NothingCaptured(n) && GenArgs(args, names, k, c, pos).aligned
    ensures AllWalkable(GenArgs(args, names, k, c, pos).code, GenArgs(args, names, k, c, pos).consts, n)
    decreases args, 1
  {
    hide Size;
    hide GenExpr;
    hide AllWalkable;
    WalkableJoins(GenArgs(args, names, k, c, pos).consts, n);
    if args.Arg? {
      var f := GenExpr(args.first, names, k, c, pos);
      var r := GenArgs(args.rest, names, f.consts, c, pos + Size(f.code));
      ArgsCode(args, names, k, c, pos, f, r);
      hide GenArgs;
      ExprWalkable(args.first, names, k, c, pos, n);
      ArgsWalkable(args.rest, names, f.consts, c, pos + Size(f.code), n);
      WalkableMore(f.code, f.consts, r.consts, n);
    }
  }

  lemma {:induction false} BlockWalkable(b: Body, names: seq<string>, k: seq<Value>, c: Ctx, pos: nat, n: nat -> nat)
    requires c.loop.InLoop? && NothingCaptured(n) && GenBlock(b, names, k, c, pos).aligned
    ensures AllWalkable(GenBlock(b, names, k, c, pos).code, GenBlock(b, names, k, c, pos).consts, n)
    decreases b, 1
  {
    hide GenBody;
    hide AllWalkable;
    WalkableJoins(GenBlock(b, names, k, c, pos).consts, n);
    BodyWalkable(b, names, k, c.(scopeStart := |names|), pos, n);
  }

  lemma {:induction false} BodyWalkable(b: Body, names: seq<string>, k: seq<Value>, c: Ctx, pos: nat, n: nat -> nat)
    requires c.loop.InLoop? && NothingCaptured(n) && GenBody(b, names, k, c, pos).aligned
    ensures AllWalkable(GenBody(b, names, k, c, pos).code, GenBody(b, names, k, c, pos).consts, n)
    decreases b, 0
  {
    hide Size;
    hide GenExpr;
    hide GenStmt;
    hide AllWalkable;
    WalkableJoins(GenBody(b, names, k, c, pos).consts, n);
    match b
    case Done =>
    case Result(e) => ExprWalkable(e, names, k, c, pos, n);
    case Let(name, init, rest) =>
      var i := GenExpr(init, names, k, c, pos);
      ExprWalkable(init, names, k, c, pos, n);
      BodyWalkable(rest, names + [name], i.consts, c, pos + Size(i.code), n);
      WalkableMore(i.code, i.consts, GenBody(b, names, k, c, pos).consts, n);
    case Then(s, rest) =>
      var d := GenStmt(s, names, k, c, pos);
      StmtWalkable(s, names, k, c, pos, n);
      BodyWalkable(rest, names, d.consts, c, pos + Size(d.code), n);
      WalkableMore(d.code, d.consts, GenBody(b, names, k, c, pos).consts, n);
  }

  lemma {:induction false} StmtWalkable(s: Stmt, names: seq<string>, k: seq<Value>, c: Ctx, pos: nat, n: nat -> nat)
    requires c.loop.InLoop? && NothingCaptured(n) && GenStmt(s, names, k, c, pos).aligned
    ensures AllWalkable(GenStmt(s, names, k, c, pos).code, GenStmt(s, names, k, c, pos).consts, n)
    decreases s, 1
  {
    hide Size;
    hide Patch;
    hide GenExpr;
    hide GenBlock;
    hide GenLiteral;
    hide AllWalkable;
    WalkableJoins(GenStmt(s, names, k, c, pos).consts, n);
    match s
    case Discard(e) => ExprWalkable(e, names, k, c, pos, n);
    case While(cond, body) => WhileWalkable(s, names, k, c, pos, n);
    case Break(value) =>
      PopsWalkable(|names|, k, n);
      if value.None? {
        LiteralWalkable(k, Nil, n);
      } else if c.loop.isExpr && c.loop.locals <= |names| {
        ExprWalkable(value.value, names, k, c, pos, n);
      }
    case Continue => PopsWalkable(|names|, k, n);
    case Return(e) => ExprWalkable(e, names, k, c, pos, n);
  }

  lemma {:induction false} PopsWalkable(m: nat, k: seq<Value>, n: nat -> nat)
    ensures forall j: nat :: j <= m ==> AllWalkable(Pops(j), k, n)
  {
    if m > 0 { PopsWalkable(m - 1, k, n); }
  }

  lemma {:induction false} WhileWalkable(s: Stmt, names: seq<string>, k: seq<Value>, c: Ctx, pos: nat, n: nat -> nat)
    requires s.While? && NothingCaptured(n) && GenStmt(s, names, k, c, pos).aligned
    ensures AllWalkable(GenStmt(s, names, k, c, pos).code, GenStmt(s, names, k, c, pos).consts, n)
    decreases s, 0
  {
    hide Size;
    hide Patch;
    hide GenExpr;
    hide GenBlock;
    hide AllWalkable;
    var q := PiecesOfWhile(s, names, k, c, pos);
    WhileCode(s, names, k, c, pos, q);
    hide GenStmt;
    WhileInner(s, names, k, c, pos, q, n);
    PatchWalkable(q.inner, pos, pos + q.d + 1, q.body.consts, n);
  }

  /** The code of a `while` before its placeholders are patched. */
  lemma {:induction false} WhileInner(s: Stmt, names: seq<string>, k: seq<Value>, c: Ctx, pos: nat, q: WhilePieces, n: nat -> nat)
    requires s.While? && q == PiecesOfWhile(s, names, k, c, pos)
    requires NothingCaptured(n) && q.cond.aligned && q.body.aligned
    ensures AllWalkable(q.inner, q.body.consts, n)
    decreases s, 0, 0
  {
    hide Size;
    hide GenExpr;
    hide GenBlock;
    hide AllWalkable;
    var c' := c.(loop := InLoop(pos, |names|, false));
    ExprWalkable(s.cond, names, k, c', pos, n);
    BlockWalkable(s.body, names, q.cond.consts, c', pos + Size(q.cond.code) + 4, n);
    WalkableMore(q.cond.code, q.cond.consts, q.body.consts, n);
    WalkableJoins(q.body.consts, n);
  }

  lemma MixedEnds(pre: seq<Byte>, inner: seq<Instr>, end: nat)
    ensures Mixed(pre, [], inner, end) == pre + EncodeAll(inner)
    ensures Mixed(pre, inner, [], end) == pre + EncodeAll(Patch(inner, |pre|, end))
    ensures Size([]) == 0
  {
    hide Encode;
    assert Patch([], |pre|, end) == [];
    assert pre + [] + EncodeAll(inner) == pre + EncodeAll(inner);
  }

  lemma MixedLength(pre: seq<Byte>, done: seq<Instr>, rest: seq<Instr>, end: nat)
    ensures |Mixed(pre, done, rest, end)| == |pre| + Size(done) + Size(rest)
    ensures rest == [] <==> Size(rest) == 0
  {
    hide Encode;
    PatchSize(done, |pre|, end);
  }
}
