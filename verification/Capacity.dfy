/** Reserved slots only decide whether a push fails: with more of them reserved, the machine
    does the same and goes on where it would have failed. */
module Capacity {
  import opened Bytecode
  import opened Values
  import opened M = Machine

  /** The same code with more slots reserved. */
  ghost predicate LooserProto(p: Proto, q: Proto) {
    q == p.(maxSlots := q.maxSlots) && p.maxSlots <= q.maxSlots
  }

  ghost predicate Looser(img: Image, big: Image) {
    && |big.protos| == |img.protos| && big.fl == img.fl && LooserProto(img.script, big.script)
    && forall f :: 0 <= f < |img.protos| ==> LooserProto(img.protos[f], big.protos[f])
  }

  ghost predicate Roomier(s: VM, t: VM) {
    t == s.(capacity := t.capacity) && s.capacity <= t.capacity
  }

  /** The tighter machine failed, or both came to the same. */
  ghost predicate Alike(a: Status, b: Status) {
    match a
    case Overflow => true
    case Running(s) => b.Running? && Roomier(s, b.vm)
    case _ => b == a
  }

  lemma PushAlike(s: VM, t: VM, v: Value)
    requires Roomier(s, t)
    ensures Alike(Push(s, v), Push(t, v))
  {
  }

  lemma ClosureAlike(s: VM, t: VM, v: Value)
    requires Roomier(s, t)
    ensures Alike(Push(s.(serial := s.serial + 1), v), Push(t.(serial := t.serial + 1), v))
  {
  }

  lemma LocalsAlike(s: VM, t: VM, i: nat)
    requires Roomier(s, t)
    ensures Alike(GetLocal(s, i), GetLocal(t, i)) && Alike(SetLocal(s, i), SetLocal(t, i))
  {
  }

  lemma GlobalsAlike(s: VM, t: VM, i: nat)
    requires Roomier(s, t)
    ensures Alike(GetGlobal(s, i), GetGlobal(t, i)) && Alike(SetGlobal(s, i), SetGlobal(t, i))
    ensures Alike(DefineGlobal(s, i), DefineGlobal(t, i))
  {
  }

  lemma OperandsAlike(img: Image, big: Image, s: VM, t: VM, op: BinaryOp, u: UnaryOp)
    requires Roomier(s, t) && big.fl == img.fl
    ensures Alike(BinaryStep(img, s, op), BinaryStep(big, t, op))
    ensures Alike(UnaryStep(img, s, u), UnaryStep(big, t, u))
  {
    hide ApplyBinary;
    hide ApplyUnary;
  }

  lemma JumpsAlike(s: VM, t: VM, target: int, offset: nat)
    requires Roomier(s, t)
    ensures Alike(Jump(s, target), Jump(t, target)) && Alike(JumpIfFalse(s, offset), JumpIfFalse(t, offset))
  {
  }

  lemma CallsAlike(img: Image, big: Image, s: VM, t: VM, n: nat)
    requires Looser(img, big) && Roomier(s, t)
    ensures Alike(CallStep(img, s, n), CallStep(big, t, n)) && Alike(ReturnStep(s), ReturnStep(t))
    ensures Alike(EndScopeStep(s, n), EndScopeStep(t, n))
  {
  }

  lemma Basics(s: VM, t: VM)
    requires Roomier(s, t)
    ensures t.stack == s.stack && t.ip == s.ip && t.fn == s.fn && t.serial == s.serial
    ensures Alike(Stuck, Stuck) && (s.stack != [] ==> Alike(Running(Drop(s, 1)), Running(Drop(t, 1))))
  {
  }

  lemma ExecAlike(img: Image, big: Image, s: VM, t: VM, i: Instr)
    requires Looser(img, big) && Roomier(s, t)
    ensures Alike(Exec(img, s, i), Exec(big, t, i))
  {
    Basics(s, t);
    assert big.ProtoOf(s.fn).consts == img.ProtoOf(s.fn).consts && big.fl == img.fl;
    hide Alike;
    hide Drop;
    hide Push;
    hide GetLocal;
    hide SetLocal;
    hide GetGlobal;
    hide SetGlobal;
    hide DefineGlobal;
    hide BinaryStep;
    hide UnaryStep;
    hide Jump;
    hide JumpIfFalse;
    hide CallStep;
    hide ReturnStep;
    hide EndScopeStep;
    match i
    case BreakHole =>
    case MakeClosure(index, _) =>
      var consts := img.ProtoOf(s.fn).consts;
      if index < |consts| && consts[index].Function? {
        ClosureAlike(s, t, Value.Closure(consts[index].def, s.serial));
      }
    case Plain(op, operand) =>
      match op
      case CONSTANT | CONSTANT_LONG =>
        var consts := img.ProtoOf(s.fn).consts;
        if operand < |consts| { PushAlike(s, t, consts[operand]); }
      case NIL => PushAlike(s, t, Nil);
      case TRUE => PushAlike(s, t, Bool(true));
      case FALSE => PushAlike(s, t, Bool(false));
      case POP =>
      case GET_LOCAL | GET_LOCAL_LONG | SET_LOCAL | SET_LOCAL_LONG => LocalsAlike(s, t, operand);
      case GET_GLOBAL | GET_GLOBAL_LONG | SET_GLOBAL | SET_GLOBAL_LONG | DEFINE_GLOBAL | DEFINE_GLOBAL_LONG =>
        GlobalsAlike(s, t, operand);
      case EQUAL => OperandsAlike(img, big, s, t, Eq, Not);
      case NOT_EQUAL => OperandsAlike(img, big, s, t, Ne, Not);
      case GREATER => OperandsAlike(img, big, s, t, Gt, Not);
      case GREATER_EQUAL => OperandsAlike(img, big, s, t, Ge, Not);
      case LESS => OperandsAlike(img, big, s, t, Lt, Not);
      case LESS_EQUAL => OperandsAlike(img, big, s, t, Le, Not);
      case ADD => OperandsAlike(img, big, s, t, Add, Not);
      case SUBSTRACT => OperandsAlike(img, big, s, t, Sub, Not);
      case MULTIPLY => OperandsAlike(img, big, s, t, Mul, Not);
      case DIVIDE => OperandsAlike(img, big, s, t, Div, Not);
      case NOT => OperandsAlike(img, big, s, t, Eq, Not);
      case NEGATE => OperandsAlike(img, big, s, t, Eq, Neg);
      case JUMP => JumpsAlike(s, t, s.ip + operand, operand);
      case JUMP_IF_FALSE => JumpsAlike(s, t, s.ip + operand, operand);
      case LOOP => JumpsAlike(s, t, s.ip - operand, operand);
      case CALL | END_SCOPE | END_SCOPE_LONG | RETURN => CallsAlike(img, big, s, t, operand);
      case _ =>
  }

  /** Run for run. */
  lemma {:induction false} RunAlike(img: Image, big: Image, s: VM, t: VM, n: nat)
    requires Looser(img, big) && Roomier(s, t)
    ensures Alike(M.Run(img, s, n), M.Run(big, t, n))
    decreases n
  {
    hide Exec;
    hide Decode;
    if n > 0 {
      assert big.ProtoOf(s.fn).code == img.ProtoOf(s.fn).code;
      var d := Decode(img.ProtoOf(s.fn).code, s.ip, NoCaptures);
      if d.Some? {
        ExecAlike(img, big, s.(ip := d.value.1), t.(ip := d.value.1), d.value.0);
        var a := M.Step(img, s);
        if a.Running? { RunAlike(img, big, a.vm, M.Step(big, t).vm, n - 1); }
      }
    }
  }
}
