/** The parser's emitting methods: they append bytes, go back to patch jumps, and keep
    the locals, the innermost loop and the slot count up to date. Each is proved to
    write exactly the code that module Codegen gives for its tree. */
module Emitter {
  import opened Bytecode
  import opened Values
  import opened Syntax
  import opened Codegen
  import opened CodeFacts
  import opened Slots
  import opened LoopWalk
  import opened Staging
  import Chunks

  class Parser {
    const globals: map<string, nat>
    const inFunction: bool
    /** The upvalue count of each function, by its definition. */
    const upvalueCount: nat -> nat

    var out: Output
    var locals: seq<Local>
    var scopeDepth: int
    var innermostLoop: Option<LoopRecord>

    ghost predicate Valid()
      reads this
    {
      NothingCaptured(upvalueCount) && Now().Sound()
    }

    ghost function Now(): Snapshot
      reads this
    {
      Snapshot(globals, inFunction, out, locals, scopeDepth, innermostLoop)
    }

    // ----- single instructions -----

    /** Appends one opcode with its operand and counts its slots. */
    method EmitInstruction(op: OpCode, operand: nat)
      requires out.numSlots <= out.maxSlots
      modifies `out
      ensures out == Emitted(old(out), [Plain(op, operand)], old(out).constants) && out.numSlots <= out.maxSlots
    {
      var bytes := Chunks.OperandBytes(OperandWidth(op), operand);
      var numSlots := out.numSlots + StackEffect(op, operand);
      EncodeOne(Plain(op, operand));
      Single(Plain(op, operand));
      out := Output(out.code + [OpByte(op)] + bytes, out.constants, numSlots,
                    if numSlots > out.maxSlots then numSlots else out.maxSlots);
    }

    /** The index of a constant, which is added unless an equal one is there. */
    method AddConstant(v: Value) returns (index: nat)
      modifies `out
      ensures (index, out.constants) == Codegen.AddConstant(old(out.constants), v)
      ensures out == old(out).(constants := out.constants)
    {
      var existing := IndexOf(out.constants, v);
      if existing >= 0 {
        return existing;
      }
      index := |out.constants|;
      out := out.(constants := out.constants + [v]);
    }

    method EmitVarLengthInstruction(op: OpCode, index: nat) returns (r: Verdict)
      requires out.numSlots <= out.maxSlots
      modifies `out
      ensures r.Pass? <==> index < MAX_INDEX
      ensures r.Pass? ==> out == Emitted(old(out), [VarLength(op, index)], old(out).constants) && out.numSlots <= out.maxSlots
    {
      if index >= MAX_INDEX {
        return Rejected;
      }
      EmitInstruction(if index < 256 then op else LongForm(op), index);
      return Pass;
    }

    method EmitConstant(v: Value) returns (r: Verdict)
      requires out.numSlots <= out.maxSlots
      modifies `out
      ensures
        var g := GenConstant(old(out.constants), v);
        && (r.Pass? <==> g.ok)
        && (r.Pass? ==> out == Emitted(old(out), g.code, g.consts) && out.numSlots <= out.maxSlots)
    {
      var index := AddConstant(v);
      r := EmitVarLengthInstruction(CONSTANT, index);
    }

    /** A jump whose distance is not known yet; returns where its operand is. */
    method EmitJump(op: OpCode) returns (offset: nat)
      requires op in {JUMP, JUMP_IF_FALSE} && out.numSlots <= out.maxSlots
      modifies `out
      ensures out == Emitted(old(out), [Plain(op, MAX_JUMP)], old(out).constants) && out.numSlots <= out.maxSlots
      ensures offset == |old(out.code)| + 1
    {
      EmitInstruction(op, MAX_JUMP);
      SizeOfPlain(op, MAX_JUMP);
      offset := |out.code| - 2;
    }

    /** The placeholder of a `break`. */
    method EmitHole()
      requires out.numSlots <= out.maxSlots
      modifies `out
      ensures out == Emitted(old(out), [BreakHole], old(out).constants) && out.numSlots <= out.maxSlots
    {
      var bytes := Chunks.OperandBytes(2, MAX_JUMP);
      EncodeOne(BreakHole);
      Single(BreakHole);
      out := out.(code := out.code + [OpByte(END)] + bytes);
    }

    method EmitLoop(start: nat) returns (r: Verdict)
      requires out.numSlots <= out.maxSlots && start <= |out.code|
      modifies `out
      ensures r.Pass? <==> |old(out.code)| - start + 3 <= MAX_JUMP
      ensures r.Pass? ==> out == Emitted(old(out), [Plain(LOOP, |old(out.code)| - start + 3)], old(out).constants) && out.numSlots <= out.maxSlots
    {
      var offset := |out.code| - start + 2 + 1;
      if offset > MAX_JUMP {
        return Rejected;
      }
      EmitInstruction(LOOP, offset);
      return Pass;
    }

    /** Aims the jump whose operand is at `offset` at the end of the code. */
    method PatchJump(offset: nat) returns (r: Verdict)
      requires offset + 2 <= |out.code|
      modifies `out
      ensures r.Pass? <==> |old(out.code)| - offset - 2 <= MAX_JUMP
      ensures r.Pass? ==> out == old(out).(code := Overwrite(old(out.code), offset, |old(out.code)| - offset - 2))
    {
      var distance := |out.code| - offset - 2;
      if distance > MAX_JUMP {
        return Rejected;
      }
      var bytes := Chunks.OperandBytes(2, distance);
      out := out.(code := out.code[..offset] + bytes + out.code[offset + 2..]);
      return Pass;
    }

    // ----- the walk over a finished loop -----

    /** Steps over the instructions from `start` to the end of the code and turns every
        placeholder, and nothing else, into a jump to the end. */
    method PatchJumpsInLoop(start: nat, ghost inner: seq<Instr>) returns (r: Verdict)
      requires start <= |out.code| && out.code[start..] == EncodeAll(inner)
      requires AllWalkable(inner, out.constants, upvalueCount)
      modifies `out
      ensures |old(out.code)| - start <= MAX_JUMP + 3 ==> r.Pass?
      ensures r.Pass? ==> out == old(out).(code := old(out.code)[..start] + EncodeAll(Patch(inner, start, |old(out.code)|)))
    {
      hide Patch;
      hide EncodeAll;
      hide Encode;
      hide Walkable;
      ghost var pre, end := out.code[..start], |out.code|;
      ghost var done: seq<Instr>, rest := [], inner;
      var i := start;
      MixedEnds(pre, inner, end);
      while i < |out.code|
        invariant done + rest == inner && i == start + Size(done)
        invariant |out.code| == end && out.code == Mixed(pre, done, rest, end)
        invariant out == old(out).(code := out.code)
        decreases |out.code| - i
      {
        MixedLength(pre, done, rest, end);
        MixedStep(pre, done, rest, end);
        assert rest[0] == inner[|done|];
        r, i := WalkOver(i, rest[0], pre + EncodeAll(Patch(done, start, end)), EncodeAll(rest[1..]));
        if r.Rejected? {
          return;
        }
        done, rest := done + [rest[0]], rest[1..];
      }
      MixedLength(pre, done, rest, end);
      assert done == inner;
      return Pass;
    }

    /** One instruction of the walk, between `head` and `tail`. */
    method WalkOver(at: nat, ghost instr: Instr, ghost head: seq<Byte>, ghost tail: seq<Byte>) returns (r: Verdict, next: nat)
      requires |head| == at && out.code == head + Encode(instr) + tail
      requires Walkable(instr, out.constants, upvalueCount)
      modifies `out
      ensures next == at + |Encode(instr)|
      ensures |old(out.code)| - at <= MAX_JUMP + 3 ==> r.Pass?
      ensures r.Pass? ==> out == old(out).(code := head + EncodeAll(Patch([instr], at, |old(out.code)|)) + tail)
      ensures r.Pass? ==> |out.code| == |old(out.code)|
    {
      hide Patch;
      hide EncodeAll;
      hide Encode;
      hide Operand;
      hide OperandWidth;
      PatchSingle(instr, at, |out.code|);
      HoleSize(at, |out.code|);
      assert out.code[at..at + |Encode(instr)|] == Encode(instr);
      var op := OpOfByte(out.code[at]);
      if op == Some(CLOSURE) || op == Some(CLOSURE_LONG) {
        next := SkipClosure(at, instr);
      } else {
        assert !instr.MakeClosure? by { if instr.MakeClosure? { ClosureBytes(out.code, at, instr.index, instr.captures); } }
        FirstByte(out.code, at, instr);
        if op == Some(END) {
          RewriteHole(head, tail, at, |out.code| - at - 3);
          next := at + 3;
          out := out.(code := out.code[at := OpByte(JUMP)]);
          r := PatchJump(at + 1);
          return;
        }
        next := at + 1 + OperandWidth(op.value);
      }
      r := Pass;
    }

    /** Steps over a closure: two bytes, then one operand for each captured variable. */
    method SkipClosure(at: nat, ghost instr: Instr) returns (next: nat)
      requires Walkable(instr, out.constants, upvalueCount)
      requires BytesAt(out.code, at, Encode(instr))
      requires at < |out.code| && OpOfByte(out.code[at]) in {Some(CLOSURE), Some(CLOSURE_LONG)}
      ensures instr.MakeClosure? && next == at + |Encode(instr)|
    {
      hide Encode;
      hide OpOfByte;
      if !instr.MakeClosure? { FirstByte(out.code, at, instr); }
      ClosureBytes(out.code, at, instr.index, instr.captures);
      var count := upvalueCount(out.constants[out.code[at + 1]].def);
      next := at + 2;
      ghost var left := instr.captures;
      for j := 0 to count
        invariant |left| == count - j && forall c <- left :: c.index < MAX_INDEX
        invariant BytesAt(out.code, next, EncodeCaptures(left))
        invariant next + |EncodeCaptures(left)| == at + |Encode(instr)|
      {
        BytesAtSplit(out.code, next, EncodeCapture(left[0]), EncodeCaptures(left[1..]));
        DecodeCaptureAt(out.code, next, left[0]);
        next := DecodeCapture(out.code, next).value.1;
        left := left[1..];
      }
    }

    // ----- scopes and variables -----

    method BeginScope()
      modifies `scopeDepth
      ensures scopeDepth == old(scopeDepth) + 1
    {
      scopeDepth := scopeDepth + 1;
    }

    /** Drops the locals of the innermost scope, which are those from `keep` on. */
    method EndScope(ghost keep: nat) returns (r: Verdict)
      requires Valid() && 0 < keep <= |locals|
      requires forall i :: 0 <= i < |locals| ==> (locals[i].depth < scopeDepth <==> i < keep)
      requires innermostLoop.Some? ==> innermostLoop.value.scopeDepth < scopeDepth
      modifies `out, `locals, `scopeDepth
      ensures r.Pass? <==> |old(locals)| - keep < MAX_INDEX
      ensures r.Pass? ==> Valid() && scopeDepth == old(scopeDepth) - 1 && locals == old(locals)[..keep]
      ensures r.Pass? ==> out == Emitted(old(out), Codegen.EndScope(|old(locals)| - keep), old(out).constants)
    {
      hide Sorted;
      var scopeLocalCount := 0;
      scopeDepth := scopeDepth - 1;
      assert Sorted(old(locals)[..keep], scopeDepth) by { TakeSorted(locals, scopeDepth + 1, keep); }
      while locals != [] && locals[|locals| - 1].depth > scopeDepth
        invariant keep <= |locals| && locals == old(locals)[..|locals|]
        invariant scopeLocalCount == |old(locals)| - |locals|
        invariant out == old(out) && scopeDepth == old(scopeDepth) - 1
        decreases |locals|
      {
        scopeLocalCount := scopeLocalCount + 1;
        locals := locals[..|locals| - 1];
      }
      assert |locals| == keep && locals == old(locals)[..keep];
      if scopeLocalCount > 0 {
        r := EmitVarLengthInstruction(END_SCOPE, scopeLocalCount);
        return;
      }
      EmittedNothing(out);
      return Pass;
    }

    /** The innermost visible local of that name, or -1. */
    method ResolveLocal(name: string) returns (i: int)
      ensures i == LastIndex(NamesOf(locals), name)
    {
      i := |locals| - 1;
      while i >= 0
        invariant -1 <= i < |locals|
        invariant forall j :: i < j < |locals| ==> locals[j].name != name
      {
        if locals[i].name == name {
          LastIndexIs(NamesOf(locals), name, i);
          return;
        }
        i := i - 1;
      }
      LastIndexIs(NamesOf(locals), name, -1);
    }

    /** Adds a local that is not initialized yet, unless its scope has the name. */
    method DeclareLocal(name: string) returns (r: Verdict)
      requires Valid() && scopeDepth > 0
      modifies `locals
      ensures r.Pass? <==> name !in NamesOf(old(locals))[CountUpTo(old(locals), scopeDepth - 1)..] && |old(locals)| < MAX_INDEX
      ensures r.Pass? ==> locals == old(locals) + [Local(name, -1)]
    {
      hide CountUpTo;
      CountMeans(locals, scopeDepth, scopeDepth - 1);
      assert forall j :: 0 <= j < |locals| ==> locals[j].depth >= 0;
      hide Sorted;
      hide NamesOf;
      hide Snapshot.Sound;
      ghost var start := CountUpTo(locals, scopeDepth - 1);
      var i := |locals| - 1;
      while i >= 0
        invariant -1 <= i < |locals|
        invariant i >= start - 1
        invariant forall j :: i < j < |locals| ==> locals[j].name != name
      {
        if locals[i].depth != -1 && locals[i].depth < scopeDepth {
          break;
        }
        if locals[i].name == name {
          NameThere(locals, start, i);
          return Rejected;
        }
        i := i - 1;
      }
      NameNotThere(locals, start, name);
      if |locals| == MAX_INDEX {
        return Rejected;
      }
      locals := locals + [Local(name, -1)];
      return Pass;
    }

    method MarkInitialized()
      requires locals != []
      modifies `locals
      ensures locals == old(locals)[..|old(locals)| - 1] + [old(locals)[|old(locals)| - 1].(depth := scopeDepth)]
    {
      locals := locals[|locals| - 1 := locals[|locals| - 1].(depth := scopeDepth)];
    }

    /** A variable declaration in a block: the initializer's slot becomes the local. */
    method DefineLocal(name: string) returns (r: Verdict)
      requires Valid() && scopeDepth > 0
      requires innermostLoop.Some? ==> innermostLoop.value.scopeDepth < scopeDepth
      modifies `locals
      ensures r.Pass? <==> name !in NamesOf(old(locals))[old(Now()).C().scopeStart..] && |old(locals)| < MAX_INDEX
      ensures r.Pass? ==> Valid() && Now() == old(Now()).(locals := old(locals) + [Local(name, scopeDepth)])
    {
      hide CountUpTo;
      hide NothingCaptured;
      ghost var before := locals;
      :- DeclareLocal(name);
      MarkInitialized();
      assert locals == before + [Local(name, scopeDepth)];
      return Pass;
    }

    // ----- expressions -----

    method Expression(e: Expr) returns (r: Verdict)
      requires Valid() && Now().Expr(e).aligned
      modifies this
      ensures old(Now()).Wrote(r, Now(), old(Now()).Expr(e))
      decreases e, 2
    {
      match e
      case Literal(v) => r := LiteralExpr(e);
      case Variable(_) => r := NamedVariable(e);
      case Assign(_, _) => r := NamedVariable(e);
      case Unary(_, _) => r := UnaryExpr(e);
      case Binary(_, _, _) => r := BinaryExpr(e);
      case And(_, _) => r := AndExpr(e);
      case Or(_, _) => r := OrExpr(e);
      case If(_, _, _) => r := IfExpr(e);
      case Block(b) => r := Block(b);
      case Loop(_) => r := LoopExpr(e);
      case Call(_, _) => r := CallExpr(e);
      case Fn(_) => r := FnExpr(e);
    }

    method LiteralExpr(e: Expr) returns (r: Verdict)
      requires Valid() && e.Literal?
      modifies this
      ensures old(Now()).Wrote(r, Now(), old(Now()).Expr(e))
    {
      hide EncodeAll;
      hide Net;
      hide Peak;
      hide VarLength;
      hide IndexOf;
      hide Codegen.AddConstant;
      hide Emitted;
      hide NothingCaptured;
      hide Sorted;
      hide NamesOf;
      hide CountUpTo;
      hide LoopOf;
      if e.value == Nil {
        EmitInstruction(NIL, 0);
      } else if e.value == Bool(true) {
        EmitInstruction(TRUE, 0);
      } else if e.value == Bool(false) {
        EmitInstruction(FALSE, 0);
      } else {
        r := EmitConstant(e.value);
        return;
      }
      return Pass;
    }

    /** The name is resolved before the assigned expression is compiled. */
    method NamedVariable(e: Expr) returns (r: Verdict)
      requires Valid() && (e.Variable? || e.Assign?) && Now().Expr(e).aligned
      modifies this
      ensures old(Now()).Wrote(r, Now(), old(Now()).Expr(e))
      decreases e, 0
    {
      hide EncodeAll;
      hide Net;
      hide Peak;
      hide VarLength;
      hide LastIndex;
      hide Emitted;
      hide Sorted;
      hide NamesOf;
      hide CountUpTo;
      hide LoopOf;
      var idx := ResolveLocal(e.name);
      var getOp, setOp := GET_LOCAL, SET_LOCAL;
      if idx < 0 {
        if e.name !in globals {
          return Rejected;
        }
        getOp, setOp, idx := GET_GLOBAL, SET_GLOBAL, globals[e.name];
      }
      ghost var o := out;
      if e.Variable? {
        r := EmitVarLengthInstruction(getOp, idx);
        return;
      }
      ghost var g := Now().Expr(e.rhs);
      :- Expression(e.rhs);
      EmittedTwice(o, g.code, g.consts, [VarLength(setOp, idx)], g.consts);
      r := EmitVarLengthInstruction(setOp, idx);
    }

    method UnaryExpr(e: Expr) returns (r: Verdict)
      requires Valid() && e.Unary? && Now().Expr(e).aligned
      modifies this
      ensures old(Now()).Wrote(r, Now(), old(Now()).Expr(e))
      decreases e, 0
    {
      hide Emitted;
      hide Sorted;
      hide NothingCaptured;
      ghost var s, g := Now(), Now().Expr(e.arg);
      assert s.Expr(e) == Gen(g.code + One(UnaryOpcode(e.uop)), g.consts, g.ok, g.aligned);
      hide Snapshot.Expr;
      hide Size;
      :- Expression(e.arg);
      EmittedPlain(s.out, g.code, g.consts, UnaryOpcode(e.uop), 0);
      EmitInstruction(UnaryOpcode(e.uop), 0);
      return Pass;
    }

    method BinaryExpr(e: Expr) returns (r: Verdict)
      requires Valid() && e.Binary? && Now().Expr(e).aligned
      modifies this
      ensures old(Now()).Wrote(r, Now(), old(Now()).Expr(e))
      decreases e, 0
    {
      hide Snapshot.Expr;
      hide GenExpr;
      hide Emitted;
      hide Sorted;
      hide Size;
      hide NothingCaptured;
      hide OperandWidth;
      hide Overwrite;
      ghost var s, l := Now(), Now().Expr(e.left);
      ghost var g := s.After(l.code, l.consts).Expr(e.right);
      BinarySteps(s, e, l, g);
      :- Expression(e.left);
      EmittedTwice(s.out, l.code, l.consts, g.code, g.consts);
      :- Expression(e.right);
      EmittedPlain(s.out, l.code + g.code, g.consts, BinaryOpcode(e.bop), 0);
      EmitInstruction(BinaryOpcode(e.bop), 0);
      return Pass;
    }

    method AndExpr(e: Expr) returns (r: Verdict)
      requires Valid() && e.And? && Now().Expr(e).aligned
      modifies this
      ensures old(Now()).Wrote(r, Now(), old(Now()).Expr(e))
      decreases e, 0
    {
      hide Snapshot.Expr;
      hide GenExpr;
      hide Emitted;
      hide Sorted;
      hide Size;
      hide NothingCaptured;
      hide OperandWidth;
      hide Overwrite;
      ghost var s, q := Now(), Now().AndParts(e);
      AndSteps(s, e, q);
      AndStages(s.out, q);
      hide AndStage;
      hide Snapshot.AndParts;
      :- Expression(e.left);
      var endJump := EmitJump(JUMP_IF_FALSE);
      EmitInstruction(POP, 0);
      assert Now() == s.After(AndStage(q, 2), q.left.consts);
      :- Expression(e.right);
      r := PatchJump(endJump);
    }

    method OrExpr(e: Expr) returns (r: Verdict)
      requires Valid() && e.Or? && Now().Expr(e).aligned
      modifies this
      ensures old(Now()).Wrote(r, Now(), old(Now()).Expr(e))
      decreases e, 0
    {
      hide Snapshot.Expr;
      hide GenExpr;
      hide Emitted;
      hide Sorted;
      hide Size;
      hide NothingCaptured;
      hide OperandWidth;
      hide Overwrite;
      ghost var s, q := Now(), Now().AndParts(e);
      OrSteps(s, e, q);
      OrStages(s.out, q);
      hide OrStage;
      hide Snapshot.AndParts;
      :- Expression(e.left);
      var elseJump := EmitJump(JUMP_IF_FALSE);
      var endJump := EmitJump(JUMP);
      r := PatchJump(elseJump);
      assert Now() == s.After(OrStage(q, 3), q.left.consts);
      EmitInstruction(POP, 0);
      assert Now() == s.After(OrStage(q, 4), q.left.consts);
      :- Expression(e.right);
      r := PatchJump(endJump);
      assert r.Pass? ==> Now() == s.After(OrStage(q, 6), q.right.consts);
    }

    method IfExpr(e: Expr) returns (r: Verdict)
      requires Valid() && e.If? && Now().Expr(e).aligned
      modifies this
      ensures old(Now()).Wrote(r, Now(), old(Now()).Expr(e))
      decreases e, 0
    {
      hide Snapshot.Expr;
      hide Snapshot.Sound;
      hide GenExpr;
      hide Emitted;
      hide Size;
      hide NothingCaptured;
      hide OperandWidth;
      hide Overwrite;
      hide Snapshot.Block;
      ghost var s, q := Now(), Now().IfParts(e);
      IfSteps(s, e, q);
      IfStages(s.out, q);
      StaysSound(s);
      hide IfStage;
      hide Snapshot.IfParts;
      :- Expression(e.cond);
      assert Now() == s.After(IfStage(q, 0), q.cond.consts);
      var thenJump := EmitJump(JUMP_IF_FALSE);
      assert Now() == s.After(IfStage(q, 1), q.cond.consts);
      EmitInstruction(POP, 0);
      assert Now() == s.After(IfStage(q, 2), q.cond.consts);
      :- Block(e.thenBody);
      r := ElsePart(e, thenJump, s, q);
    }

    /** From the end of the `then` block on. */
    method ElsePart(e: Expr, thenJump: nat, ghost s: Snapshot, ghost q: IfParts) returns (r: Verdict)
      requires Valid() && e.If? && s.Sound() && q == s.IfParts(e) && q.els.aligned
      requires Now() == s.After(IfStage(q, 3), q.thn.consts) && thenJump == |s.out.code| + Size(q.cond.code) + 1
      modifies this
      ensures r.Pass? <==> q.els.ok && q.dt <= MAX_JUMP && q.df <= MAX_JUMP
      ensures r.Pass? ==> Valid() && Now() == s.After(IfStage(q, 8), q.els.consts)
      decreases e, 0, 0
    {
      hide Snapshot.Expr;
      hide Snapshot.Sound;
      hide GenExpr;
      hide Emitted;
      hide Size;
      hide NothingCaptured;
      hide OperandWidth;
      hide Overwrite;
      IfSteps(s, e, q);
      IfStages(s.out, q);
      StaysSound(s);
      hide IfStage;
      hide Snapshot.IfParts;
      var elseJump := EmitJump(JUMP);
      :- PatchJump(thenJump);
      assert Now() == s.After(IfStage(q, 5), q.thn.consts);
      EmitInstruction(POP, 0);
      assert Now() == s.After(IfStage(q, 6), q.thn.consts);
      :- Expression(e.elseExpr);
      assert Now() == s.After(IfStage(q, 7), q.els.consts);
      r := PatchJump(elseJump);
      assert r.Pass? ==> Now() == s.After(IfStage(q, 8), q.els.consts);
    }
    /** `loop`: the end of the code, where `break` arrives, is only known afterwards. */
    method LoopExpr(e: Expr) returns (r: Verdict)
      requires Valid() && e.Loop? && Now().Expr(e).aligned
      modifies this
      ensures old(Now()).Wrote(r, Now(), old(Now()).Expr(e))
      decreases e, 0
    {
      hide Snapshot.Expr;
      hide GenExpr;
      hide Emitted;
      hide Sorted;
      hide Size;
      hide NothingCaptured;
      hide OperandWidth;
      hide Overwrite;
      hide Snapshot.Block;
      hide Patch;
      hide AllWalkable;
      ghost var s := Now();
      var enclosing := innermostLoop;
      BeginLoop(true);
      var start := innermostLoop.value.start;
      ghost var inside, b := Now(), Now().Block(e.body);
      ghost var inner := b.code + One(POP) + [Plain(LOOP, Size(b.code) + 4)];
      LoopSteps(s, inside, e, b, upvalueCount);
      :- Block(e.body);
      Stage(s.out, b.code, b.consts, POP, 0, b.code + One(POP));
      EmitInstruction(POP, 0);
      Widths();
      Stage(s.out, b.code + One(POP), b.consts, LOOP, Size(b.code) + 4, inner);
      :- EmitLoop(start);
      assert Now() == inside.After(inner, b.consts);
      r := EndLoop(enclosing, s.out, inner);
    }

    method BeginLoop(isLoopExpr: bool)
      requires Valid()
      modifies `innermostLoop
      ensures innermostLoop == Some(LoopRecord(|out.code|, scopeDepth, isLoopExpr)) && Valid()
      ensures Now().C() == old(Now()).C().(loop := InLoop(|out.code|, |locals|, isLoopExpr))
    {
      innermostLoop := Some(LoopRecord(|out.code|, scopeDepth, isLoopExpr));
      CountSplit(locals, scopeDepth, |locals|);
    }

    /** Patches the placeholders in the code of the loop, which is `inner`. */
    method EndLoop(enclosing: Option<LoopRecord>, ghost o: Output, ghost inner: seq<Instr>) returns (r: Verdict)
      requires out.numSlots <= out.maxSlots && innermostLoop.Some? && innermostLoop.value.start == |o.code|
      requires out == Emitted(o, inner, out.constants) && AllWalkable(inner, out.constants, upvalueCount)
      requires Size(inner) <= MAX_JUMP + 3
      modifies `out, `innermostLoop
      ensures r.Pass? && innermostLoop == enclosing
      ensures out == Emitted(o, Patch(inner, |o.code|, |o.code| + Size(inner)), old(out.constants)) && out.numSlots <= out.maxSlots
    {
      hide Emitted;
      hide EncodeAll;
      hide AllWalkable;
      hide Patch;
      LoopEmitted(o, inner, out.constants, |o.code| + Size(inner));
      hide Size;
      r := PatchJumpsInLoop(innermostLoop.value.start, inner);
      innermostLoop := enclosing;
    }

    method CallExpr(e: Expr) returns (r: Verdict)
      requires Valid() && e.Call? && Now().Expr(e).aligned
      modifies this
      ensures old(Now()).Wrote(r, Now(), old(Now()).Expr(e))
      decreases e, 0
    {
      hide Snapshot.Expr;
      hide GenExpr;
      hide Emitted;
      hide Sorted;
      hide Size;
      hide NothingCaptured;
      hide OperandWidth;
      hide Overwrite;
      hide Snapshot.Args;
      ghost var s, f := Now(), Now().Expr(e.callee);
      ghost var a := s.After(f.code, f.consts).Args(e.args);
      CallSteps(s, e, f, a);
      :- Expression(e.callee);
      EmittedTwice(s.out, f.code, f.consts, a.code, a.consts);
      var count :- ArgumentList(e.args);
      EmittedPlain(s.out, f.code + a.code, a.consts, CALL, count);
      EmitInstruction(CALL, count);
      return Pass;
    }

    method ArgumentList(args: Args) returns (r: Verdict, count: nat)
      requires Valid() && Now().Args(args).aligned
      modifies this
      ensures old(Now()).Wrote(r, Now(), old(Now()).Args(args).(ok := old(Now()).Args(args).ok && ArgCount(args) <= MAX_ARGUMENTS))
      ensures r.Pass? ==> count == ArgCount(args)
      decreases args, 1
    {
      hide Snapshot.Expr;
      hide Emitted;
      hide Sorted;
      hide Size;
      hide NothingCaptured;
      hide OperandWidth;
      hide Overwrite;
      hide Snapshot.Args;
      ghost var s, g := Now(), Now().Args(args);
      ghost var w: seq<Instr> := [];
      var rest := args;
      count := 0;
      EmittedNothing(s.out);
      assert [] + g.code == g.code;
      while rest.Arg?
        invariant rest == args || rest < args
        invariant count + ArgCount(rest) == ArgCount(args) && count <= MAX_ARGUMENTS
        invariant Valid() && Now() == s.After(w, out.constants) && Now().Args(rest).aligned
        invariant g == Now().Args(rest).(code := w + Now().Args(rest).code, aligned := g.aligned)
        decreases rest
      {
        ghost var here, f := Now(), Now().Expr(rest.first);
        ghost var t := here.After(f.code, f.consts).Args(rest.rest);
        ArgSteps(here, rest, f, t);
        EmittedTwice(s.out, w, out.constants, f.code, f.consts);
        assert w + (f.code + t.code) == w + f.code + t.code;
        r := Expression(rest.first);
        if r.Rejected? {
          return;
        }
        w := w + f.code;
        rest, count := rest.rest, count + 1;
        if count == MAX_ARGUMENTS + 1 {
          r := Rejected;
          return;
        }
      }
      NoArgSteps(Now(), rest);
      assert w + [] == w;
      r := Pass;
    }

    /** The function itself has been compiled by its own parser state. */
    method FnExpr(e: Expr) returns (r: Verdict)
      requires Valid() && e.Fn?
      modifies this
      ensures old(Now()).Wrote(r, Now(), old(Now()).Expr(e))
    {
      hide Sorted;
      hide NamesOf;
      hide CountUpTo;
      hide LoopOf;
      hide NothingCaptured;
      hide EncodeAll;
      ghost var o := out;
      var index := AddConstant(Function(e.def));
      ClosureEmitted(out, index);
      hide Emitted;
      r := EmitVarLengthInstruction(CLOSURE, index);
    }

    // ----- blocks -----

    method Block(b: Body) returns (r: Verdict)
      requires Valid() && Now().Block(b).aligned
      modifies this
      ensures old(Now()).Wrote(r, Now(), old(Now()).Block(b))
      decreases b, 3
    {
      hide Snapshot.Expr;
      hide GenExpr;
      hide Emitted;
      hide Sorted;
      hide Size;
      hide NothingCaptured;
      hide OperandWidth;
      hide Overwrite;
      hide Snapshot.Block;
      hide Snapshot.Body;
      ghost var s, keep := Now(), |locals|;
      EnterScope(locals, scopeDepth);
      BeginScope();
      ghost var g := Now().Body(b);
      BlockSteps(s, Now(), b, g);
      :- BlockNoScope(b);
      EmittedTwice(s.out, g.code, g.consts, Codegen.EndScope(LetCount(b)), g.consts);
      LeaveScope(s.locals, locals, scopeDepth);
      r := EndScope(keep);
      assert locals == s.locals;
    }

    /** The statements and the result of a block; its locals stay declared. */
    method BlockNoScope(b: Body) returns (r: Verdict)
      requires Valid() && scopeDepth > 0 && Now().Body(b).aligned
      requires innermostLoop.Some? ==> innermostLoop.value.scopeDepth < scopeDepth
      modifies this
      ensures r.Pass? <==> old(Now()).Body(b).ok
      ensures r.Pass? ==> Valid() && |locals| == |old(locals)| + LetCount(b) && Deepened(old(locals), locals, scopeDepth)
      ensures r.Pass? ==>
        var g := old(Now()).Body(b);
        Now() == old(Now()).After(g.code, g.consts).(locals := locals)
      decreases b, 2
    {
      hide Snapshot.Expr;
      hide Snapshot.Body;
      hide Snapshot.Stmt;
      hide Snapshot.Sound;
      hide Emitted;
      hide Size;
      hide NothingCaptured;
      hide Deepened;
      ghost var s, g := Now(), Now().Body(b);
      ghost var w: seq<Instr> := [];
      var rest := b;
      DeepenedNot(locals, scopeDepth);
      StaysSound(s);
      EmittedNothing(s.out);
      assert [] + g.code == g.code;
      while rest.Let? || rest.Then?
        invariant rest == b || rest < b
        invariant Valid() && Now() == s.After(w, out.constants).(locals := locals)
        invariant |locals| + LetCount(rest) == |s.locals| + LetCount(b) && Deepened(s.locals, locals, scopeDepth)
        invariant Now().Body(rest).aligned
        invariant g == Now().Body(rest).(code := w + Now().Body(rest).code, aligned := g.aligned)
        decreases rest
      {
        ghost var f, next := Now().First(rest), Now().Next(rest);
        BodySteps(Now(), rest);
        NextAfter(s, Now(), w, out.constants, rest);
        hide Snapshot.First;
        hide Snapshot.Next;
        assert w + (f.code + next.Body(rest.rest).code) == w + f.code + next.Body(rest.rest).code;
        :- StatementOrDeclaration(rest);
        w, rest := w + f.code, rest.rest;
      }
      ghost var last := Now().Body(rest);
      EmittedTwice(s.out, w, out.constants, last.code, last.consts);
      r := BlockResult(rest);
    }

    /** The result expression of a block, or nil. */
    method BlockResult(b: Body) returns (r: Verdict)
      requires Valid() && (b.Done? || b.Result?) && Now().Body(b).aligned
      modifies this
      ensures old(Now()).Wrote(r, Now(), old(Now()).Body(b))
      decreases b, 0
    {
      LastSteps(Now(), b);
      hide Snapshot.Body;
      hide Emitted;
      if b.Done? {
        StaysSound(Now());
        EmitInstruction(NIL, 0);
        assert Now() == old(Now()).After(One(NIL), old(out).constants);
        return Pass;
      }
      r := Expression(b.e);
    }

    /** One declaration or statement of a block. */
    method StatementOrDeclaration(b: Body) returns (r: Verdict)
      requires Valid() && scopeDepth > 0 && (b.Let? || b.Then?) && Now().Body(b).aligned
      requires innermostLoop.Some? ==> innermostLoop.value.scopeDepth < scopeDepth
      modifies this
      ensures r.Rejected? ==> !old(Now()).Body(b).ok
      ensures r.Pass? ==> Valid() && Now() == old(Now()).Next(b)
      ensures r.Pass? ==> old(Now()).Body(b).ok == old(Now()).Next(b).Body(b.rest).ok
      decreases b, 1
    {
      hide Snapshot.Expr;
      hide Snapshot.Body;
      hide Snapshot.Stmt;
      hide Emitted;
      hide Sorted;
      hide CountUpTo;
      hide Size;
      hide NothingCaptured;
      BodySteps(Now(), b);
      if b.Then? {
        r := Statement(b.s);
        return;
      }
      :- Expression(b.init);
      r := DefineLocal(b.name);
    }
    // ----- statements -----

    method Statement(s: Stmt) returns (r: Verdict)
      requires Valid() && Now().Stmt(s).aligned
      modifies this
      ensures old(Now()).Wrote(r, Now(), old(Now()).Stmt(s))
      decreases s, 2
    {
      match s
      case Discard(_) => r := ExpressionStatement(s);
      case While(_, _) => r := WhileStatement(s);
      case Break(_) => r := BreakStatement(s);
      case Continue => r := ContinueStatement(s);
      case Return(_) => r := ReturnStatement(s);
    }

    method ExpressionStatement(s: Stmt) returns (r: Verdict)
      requires Valid() && s.Discard? && Now().Stmt(s).aligned
      modifies this
      ensures old(Now()).Wrote(r, Now(), old(Now()).Stmt(s))
      decreases s, 0
    {
      hide Emitted;
      hide Sorted;
      hide Size;
      hide NothingCaptured;
      hide Snapshot.Expr;
      ghost var o, g := Now(), Now().Expr(s.e);
      StmtSteps(o, s, g);
      hide Snapshot.Stmt;
      :- Expression(s.e);
      EmittedPlain(o.out, g.code, g.consts, POP, 0);
      EmitInstruction(POP, 0);
      return Pass;
    }

    method ReturnStatement(s: Stmt) returns (r: Verdict)
      requires Valid() && s.Return? && Now().Stmt(s).aligned
      modifies this
      ensures old(Now()).Wrote(r, Now(), old(Now()).Stmt(s))
      decreases s, 0
    {
      hide Emitted;
      hide Sorted;
      hide Size;
      hide NothingCaptured;
      hide Snapshot.Expr;
      ghost var o, g := Now(), Now().Expr(s.e);
      StmtSteps(o, s, g);
      hide Snapshot.Stmt;
      if !inFunction {
        return Rejected;
      }
      :- Expression(s.e);
      EmittedPlain(o.out, g.code, g.consts, RETURN, 0);
      EmitInstruction(RETURN, 0);
      return Pass;
    }

    method WhileStatement(s: Stmt) returns (r: Verdict)
      requires Valid() && s.While? && Now().Stmt(s).aligned
      modifies this
      ensures old(Now()).Wrote(r, Now(), old(Now()).Stmt(s))
      decreases s, 0
    {
      hide Snapshot.Expr;
      hide Snapshot.Sound;
      hide GenExpr;
      hide Emitted;
      hide Size;
      hide NothingCaptured;
      hide OperandWidth;
      hide Overwrite;
      hide Snapshot.Block;
      hide Snapshot.Stmt;
      hide Patch;
      hide AllWalkable;
      ghost var o, q := Now(), Now().WhilePieces(s);
      var enclosing := innermostLoop;
      StaysSound(o);
      BeginLoop(false);
      ghost var inside := Now();
      WhileSteps(o, inside, s, q, upvalueCount);
      WhileStages(o.out, q);
      StaysSound(inside);
      hide WhileStage;
      hide Snapshot.WhilePieces;
      :- Expression(s.cond);
      assert Now() == inside.After(WhileStage(q, 0), q.cond.consts);
      var exitJump := EmitJump(JUMP_IF_FALSE);
      assert Now() == inside.After(WhileStage(q, 1), q.cond.consts);
      EmitInstruction(POP, 0);
      assert Now() == inside.After(WhileStage(q, 2), q.cond.consts);
      :- Block(s.body);
      r := WhileEnd(exitJump, enclosing, inside, q);
    }

    /** From the end of the body of a `while` on. */
    method WhileEnd(exitJump: nat, enclosing: Option<LoopRecord>, ghost inside: Snapshot, ghost q: WhilePieces) returns (r: Verdict)
      requires Valid() && inside.Sound() && Now() == inside.After(WhileStage(q, 3), q.body.consts)
      requires q.dx == Size(q.body.code) + 5 && q.d == Size(q.cond.code) + 3 + q.dx && q.inner == WhileStage(q, 6) + One(POP)
      requires inside.innermostLoop.Some? && inside.innermostLoop.value.start == |inside.out.code|
      requires exitJump == |inside.out.code| + Size(q.cond.code) + 1 && AllWalkable(q.inner, q.body.consts, upvalueCount)
      modifies this
      ensures r.Pass? <==> q.d <= MAX_JUMP
      ensures r.Pass? ==>
        Now() == inside.After(Patch(q.inner, |inside.out.code|, |inside.out.code| + q.d + 1), q.body.consts).(innermostLoop := enclosing)
      ensures r.Pass? ==> out.numSlots <= out.maxSlots
    {
      hide Snapshot.Sound;
      hide Emitted;
      hide Size;
      hide NothingCaptured;
      hide OperandWidth;
      hide Overwrite;
      hide Patch;
      hide AllWalkable;
      WhileStages(inside.out, q);
      StaysSound(inside);
      hide WhileStage;
      EmitInstruction(POP, 0);
      assert Now() == inside.After(WhileStage(q, 4), q.body.consts);
      :- EmitLoop(innermostLoop.value.start);
      r := PatchJump(exitJump);
      assert Now() == inside.After(WhileStage(q, 6), q.body.consts);
      EmitInstruction(POP, 0);
      assert Now() == inside.After(q.inner, q.body.consts);
      r := EndLoop(enclosing, inside.out, q.inner);
    }
    /** Drops the locals of the innermost loop: one by one, or all at once below the
        result of a `loop`. */
    method EmitPopInnermostLoop(skipTopExpression: bool) returns (r: Verdict)
      requires Valid() && innermostLoop.Some?
      modifies `out
      ensures
        var n := |locals| - CountUpTo(locals, innermostLoop.value.scopeDepth);
        && (r.Pass? <==> skipTopExpression ==> n < MAX_INDEX)
        && (r.Pass? ==> out.numSlots <= out.maxSlots)
        && (r.Pass? ==> out == Emitted(old(out), if skipTopExpression then Codegen.EndScope(n) else Pops(n), old(out).constants))
    {
      hide Emitted;
      hide Size;
      ghost var o := out;
      var d := innermostLoop.value.scopeDepth;
      CountMeans(locals, scopeDepth, d);
      hide Sorted;
      hide CountUpTo;
      var loopLocalCount := 0;
      var i := |locals| - 1;
      EmittedNothing(o);
      while i >= 0 && locals[i].depth > d
        invariant CountUpTo(locals, d) - 1 <= i < |locals| && loopLocalCount == |locals| - 1 - i
        invariant out == Emitted(o, if skipTopExpression then [] else Pops(loopLocalCount), o.constants)
        invariant out.numSlots <= out.maxSlots
      {
        if !skipTopExpression {
          EmittedTwice(o, Pops(loopLocalCount), o.constants, One(POP), o.constants);
          PopsEnd(loopLocalCount);
          EmitInstruction(POP, 0);
        }
        loopLocalCount := loopLocalCount + 1;
        i := i - 1;
      }
      if skipTopExpression && loopLocalCount > 0 {
        r := EmitVarLengthInstruction(END_SCOPE, loopLocalCount);
        return;
      }
      return Pass;
    }

    method BreakStatement(s: Stmt) returns (r: Verdict)
      requires Valid() && s.Break? && Now().Stmt(s).aligned
      modifies this
      ensures old(Now()).Wrote(r, Now(), old(Now()).Stmt(s))
      decreases s, 0
    {
      hide GenExpr;
      hide Emitted;
      hide Sorted;
      hide NamesOf;
      hide CountUpTo;
      hide Size;
      hide NothingCaptured;
      hide Pops;
      hide VarLength;
      if innermostLoop.None? {
        return Rejected;
      }
      ghost var o, k, w := out, out.constants, [];
      ghost var n := |locals| - CountUpTo(locals, innermostLoop.value.scopeDepth);
      EmittedNothing(o);
      var loop := innermostLoop.value;
      if loop.isLoopExpr {
        if s.value.None? {
          w := One(NIL);
          EmitInstruction(NIL, 0);
        } else {
          w, k := Now().Expr(s.value.value).code, Now().Expr(s.value.value).consts;
          :- Expression(s.value.value);
        }
      } else if s.value.Some? {
        return Rejected;
      }
      ghost var p := if loop.isLoopExpr then Codegen.EndScope(n) else Pops(n);
      EmittedTwice(o, w, k, p, k);
      EmittedTwice(o, w + p, k, [BreakHole], k);
      assert [] + p + [BreakHole] == p + [BreakHole];
      :- EmitPopInnermostLoop(loop.isLoopExpr);
      EmitHole();
      return Pass;
    }

    method ContinueStatement(s: Stmt) returns (r: Verdict)
      requires Valid() && s.Continue? && Now().Stmt(s).aligned
      modifies this
      ensures old(Now()).Wrote(r, Now(), old(Now()).Stmt(s))
    {
      hide GenExpr;
      hide Emitted;
      hide Sorted;
      hide NamesOf;
      hide CountUpTo;
      hide Size;
      hide NothingCaptured;
      hide Pops;
      if innermostLoop.None? {
        return Rejected;
      }
      ghost var o, k := out, out.constants;
      ghost var n := |locals| - CountUpTo(locals, innermostLoop.value.scopeDepth);
      ghost var d := |o.code| + n + 3 - innermostLoop.value.start;
      EmittedTwice(o, Pops(n), k, [Plain(LOOP, d)], k);
      PopsSize(n);
      r := EmitPopInnermostLoop(false);
      r := EmitLoop(innermostLoop.value.start);
    }

    // ----- functions and scripts -----

    /** A fresh function with its reserved first local. */
    constructor Begin(globals: map<string, nat>, inFunction: bool, upvalueCount: nat -> nat)
      ensures this.globals == globals && this.inFunction == inFunction && this.upvalueCount == upvalueCount
      ensures out == Output([], [], 0, 0) && locals == [Local("", 0)] && scopeDepth == 0 && innermostLoop.None?
    {
      this.globals, this.inFunction, this.upvalueCount := globals, inFunction, upvalueCount;
      out, locals, scopeDepth, innermostLoop := Output([], [], 0, 0), [Local("", 0)], 0, None;
    }

    /** Compiles a whole function into this fresh state. */
    method FunctionBody(def: FnDef) returns (r: Verdict)
      requires out == Output([], [], 0, 0) && locals == [Local("", 0)] && scopeDepth == 0 && innermostLoop.None?
      requires inFunction && NothingCaptured(upvalueCount) && GenFunction(def, globals).aligned
      modifies this
      ensures r.Pass? <==> GenFunction(def, globals).ok
      ensures r.Pass? ==>
        var g := GenFunction(def, globals);
        out.code == EncodeAll(g.code) && out.constants == g.consts && out.maxSlots == MaxSlots(def, globals)
    {
      hide EncodeAll;
      hide GenBody;
      hide Net;
      hide Peak;
      hide NothingCaptured;
      hide Sorted;
      hide CountUpTo;
      ghost var o := out;
      BeginScope();
      :- Parameters(def.params);
      ParameterScope(def.params);
      ghost var g := Now().Body(def.body);
      assert g == GenBody(def.body, [""] + def.params, [], Ctx(globals, true, 1, NoLoop), 0);
      :- BlockNoScope(def.body);
      EmittedPlain(o, g.code, g.consts, RETURN, 0);
      EmitInstruction(RETURN, 0);
      return Pass;
    }

    method Parameters(params: seq<string>) returns (r: Verdict)
      requires NothingCaptured(upvalueCount) && out.numSlots <= out.maxSlots
      requires locals == [Local("", 0)] && scopeDepth == 1 && innermostLoop.None?
      modifies `locals
      ensures r.Pass? <==> |params| <= MAX_ARGUMENTS && forall i, j :: 0 <= i < j < |params| ==> params[i] != params[j]
      ensures r.Pass? ==> Valid() && locals == ParameterLocals(params)
    {
      hide NothingCaptured;
      if |params| > MAX_ARGUMENTS {
        return Rejected;
      }
      for i := 0 to |params|
        invariant Valid() && locals == ParameterLocals(params[..i])
        invariant forall j, k :: 0 <= j < k < i ==> params[j] != params[k]
      {
        ParameterScope(params[..i]);
        assert params[..i + 1] == params[..i] + [params[i]];
        r := DefineLocal(params[i]);
        if r.Rejected? {
          assert exists j :: 0 <= j < i && params[j] == params[i];
          return;
        }
      }
      assert params[..|params|] == params;
      return Pass;
    }

    /** Compiles top-level code. */
    method ScriptBody(p: Script) returns (r: Verdict)
      requires Valid() && AtTopLevel(Now()) && Now().Script(p).aligned
      modifies this
      ensures
        var g := old(Now()).Script(p);
        && (r.Pass? <==> g.ok)
        && (r.Pass? ==> Now() == old(Now()).After(g.code, g.consts))
    {
      hide Emitted;
      hide Size;
      hide NothingCaptured;
      hide Snapshot.Sound;
      hide ScriptPiece;
      ghost var s, g := Now(), Now().Script(p);
      ghost var w: seq<Instr> := [];
      var rest := p;
      StaysSound(s);
      EmittedNothing(s.out);
      assert [] + g.code == g.code;
      while !rest.End?
        invariant Valid() && Now() == s.After(w, out.constants) && Now().Script(rest).aligned
        invariant
          var t := Now().Script(rest);
          g == t.(code := w + t.code, aligned := g.aligned)
        decreases rest
      {
        hide Snapshot.Script;
        ghost var f := ScriptPiece(Now(), rest);
        ghost var t := Now().After(f.code, f.consts).Script(rest.next);
        ScriptSteps(Now(), rest);
        EmittedTwice(s.out, w, out.constants, f.code, f.consts);
        assert w + (f.code + t.code) == w + f.code + t.code;
        :- TopLevel(rest);
        w, rest := w + f.code, rest.next;
      }
      EmittedTwice(s.out, w, out.constants, One(NIL), out.constants);
      EmitInstruction(NIL, 0);
      assert Now() == s.After(w + One(NIL), out.constants);
      EmittedTwice(s.out, w + One(NIL), out.constants, One(RETURN), out.constants);
      EmitInstruction(RETURN, 0);
      assert w + (One(NIL) + One(RETURN)) == w + One(NIL) + One(RETURN);
      return Pass;
    }

    /** One global definition or statement. */
    method TopLevel(p: Script) returns (r: Verdict)
      requires Valid() && AtTopLevel(Now()) && !p.End? && ScriptPiece(Now(), p).aligned
      modifies this
      ensures old(Now()).Wrote(r, Now(), ScriptPiece(old(Now()), p))
    {
      hide Emitted;
      hide NothingCaptured;
      hide Snapshot.Expr;
      hide Snapshot.Stmt;
      if p.Run? {
        r := Statement(p.s);
        return;
      }
      if p.name !in globals {
        return Rejected;
      }
      ghost var s, f, def := Now(), Now().Expr(p.init), [VarLength(DEFINE_GLOBAL, globals[p.name])];
      :- Expression(p.init);
      EmittedTwice(s.out, f.code, f.consts, def, f.consts);
      r := EmitVarLengthInstruction(DEFINE_GLOBAL, globals[p.name]);
    }
  }
}
