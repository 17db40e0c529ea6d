/** The dispatch loop as the machine runs it: it reads opcodes and operands from bytes and
    changes its stack, frames and globals. Every step is a step of module Machine. */
module Interpreter {
  import opened Bytecode
  import opened Values
  import opened Chunks
  import Evaluator
  import M = Machine

  /** Whether the loop goes on. */
  datatype Flow = Go | Halt(status: M.Status)

  /** A closure has no captures here. */
  function InstrOf(op: OpCode, operand: nat): Instr {
    if op == CLOSURE || op == CLOSURE_LONG then MakeClosure(operand, []) else Plain(op, operand)
  }

  /** The step that the machine makes, by what it fetches. */
  lemma Fetched(img: M.Image, s: M.VM)
    ensures
      var code, ip := img.ProtoOf(s.fn).code, s.ip;
      M.Step(img, s) ==
        if ip >= |code| || OpOfByte(code[ip]).None? then M.Stuck else
        var op := OpOfByte(code[ip]).value;
        var end := ip + 1 + OperandWidth(op);
        if op == END || end > |code| then M.Stuck else
        var operand := ReadOperand(code[ip + 1..end]);
        M.Exec(img, s.(ip := end), InstrOf(op, operand))
  {
    hide OpOfByte;
    hide ReadOperand;
    hide OperandWidth;
    hide M.Exec;
  }

  lemma BinaryCases(img: M.Image, s: M.VM, op: BinaryOp)
    requires op !in {Eq, Ne}
    ensures
      M.BinaryStep(img, s, op) ==
        if |s.stack| < 2 then M.Stuck else
        var a, b, rest := s.stack[|s.stack| - 2], s.stack[|s.stack| - 1], s.stack[..|s.stack| - 2];
        if op == Div && a.Int? && b.Int? && b.i == 0 then M.Fault(DivisionByZero)
        else if !a.IsNumber() || !b.IsNumber() then M.Fault(OperandsMustBeNumbers)
        else
          var v := if a.Int? && b.Int? then IntOp(op, a.i, b.i) else FloatOp(img.fl, op, ForceFloat(img.fl, a), ForceFloat(img.fl, b));
          M.Running(s.(stack := rest + [v]))
  {
    hide IntOp;
    hide FloatOp;
    hide ForceFloat;
    hide ValuesEqual;
  }

  class VM {
    const img: M.Image
    var stack: seq<Value>
    var capacity: nat
    /** The frame of the running function is the last one. */
    var frames: seq<M.Frame>
    var globals: seq<Option<Value>>
    var serial: nat

    ghost predicate Valid()
      reads this
    {
      frames != [] && |stack| <= capacity
    }

    ghost function State(): M.VM
      requires frames != []
      reads this
    {
      var f := frames[|frames| - 1];
      M.VM(stack, capacity, f.fn, f.ip, f.base, frames[..|frames| - 1], globals, serial)
    }

    /** The machine came to what the specification says. */
    ghost predicate Matches(r: Flow, s: M.Status)
      reads this
    {
      match s
      case Running(vm) => r == Go && Valid() && State() == vm
      case _ => r == Halt(s)
    }

    /** A machine that is about to run the script: its closure is on the stack, its slots
        are reserved, and no global is defined. */
    constructor (img: M.Image, self: Value, globalCount: nat)
      ensures this.img == img && Valid()
      ensures stack == [self] && capacity == 1 + img.script.maxSlots && serial == 0
      ensures State() == M.VM([self], 1 + img.script.maxSlots, |img.protos|, 0, 0, [], globals, 0)
      ensures |globals| == globalCount && forall i :: 0 <= i < globalCount ==> globals[i] == None
    {
      this.img := img;
      stack, capacity, frames := [self], 1 + img.script.maxSlots, [M.Frame(|img.protos|, 0, 0)];
      globals, serial := seq(globalCount, _ => None), 0;
    }

    method Push(v: Value) returns (r: Flow)
      requires Valid()
      modifies `stack
      ensures Matches(r, M.Push(old(State()), v))
    {
      if |stack| == capacity {
        return Halt(M.Overflow);
      }
      stack := stack + [v];
      return Go;
    }

    method Pop() returns (v: Value)
      requires Valid() && stack != []
      modifies `stack
      ensures Valid() && stack == old(stack)[..|old(stack)| - 1] && v == old(stack)[|old(stack)| - 1]
    {
      v := stack[|stack| - 1];
      stack := stack[..|stack| - 1];
    }

    function Peek(distance: nat): Value
      requires distance < |stack|
      reads this
    {
      stack[|stack| - 1 - distance]
    }

    // ----- operators -----

    method NegateOp() returns (r: Flow)
      requires Valid()
      modifies `stack
      ensures Matches(r, M.UnaryStep(img, old(State()), Neg))
    {
      if stack == [] { return Halt(M.Stuck); }
      var result: Value;
      if Peek(0).Int? {
        var v := Pop();
        result := Int(-v.i);
      } else if Peek(0).Flt? {
        var v := Pop();
        result := Flt(img.fl.neg(v.f));
      } else {
        return Halt(M.Fault(OperandMustBeNumber));
      }
      r := Push(result);
    }

    method NotOp() returns (r: Flow)
      requires Valid()
      modifies `stack
      ensures Matches(r, M.UnaryStep(img, old(State()), Not))
      ensures old(stack) != [] ==>
        var n := |old(stack)| - 1;
        r == Go && stack == old(stack)[..n] + [Bool(old(stack)[n] == Nil || old(stack)[n] == Bool(false))]
    {
      if stack == [] { return Halt(M.Stuck); }
      var v := Pop();
      r := Push(Bool(v.IsFalsey()));
    }

    method EqualOp(negated: bool) returns (r: Flow)
      requires Valid()
      modifies `stack
      ensures Matches(r, M.BinaryStep(img, old(State()), if negated then Ne else Eq))
    {
      if |stack| < 2 { return Halt(M.Stuck); }
      var rhs := Pop();
      var lhs := Pop();
      var same := ValuesEqual(img.fl, lhs, rhs);
      r := Push(Bool(if negated then !same else same));
    }

    /** Arithmetic and comparison: integers on two integers, floats otherwise. */
    method BinaryOperation(op: BinaryOp) returns (r: Flow)
      requires Valid() && op !in {Eq, Ne}
      modifies `stack
      ensures Matches(r, M.BinaryStep(img, old(State()), op))
    {
      hide M.BinaryStep;
      hide IntOp;
      hide FloatOp;
      hide ForceFloat;
      hide Value.IsNumber;
      BinaryCases(img, State(), op);
      if |stack| < 2 { return Halt(M.Stuck); }
      if op == Div && Peek(0).Int? && Peek(1).Int? && Peek(0).i == 0 {
        return Halt(M.Fault(DivisionByZero));
      }
      if !Peek(0).IsNumber() || !Peek(1).IsNumber() {
        return Halt(M.Fault(OperandsMustBeNumbers));
      }
      var rhs := Pop();
      var lhs := Pop();
      var result: Value;
      if lhs.Int? && rhs.Int? {
        result := IntOp(op, lhs.i, rhs.i);
      } else {
        result := FloatOp(img.fl, op, ForceFloat(img.fl, lhs), ForceFloat(img.fl, rhs));
      }
      r := Push(result);
    }

    // ----- variables -----

    method GetLocal(slot: nat) returns (r: Flow)
      requires Valid()
      modifies `stack
      ensures Matches(r, M.GetLocal(old(State()), slot))
    {
      var frame := frames[|frames| - 1];
      if frame.base + slot >= |stack| { return Halt(M.Stuck); }
      r := Push(stack[frame.base + slot]);
    }

    method SetLocal(slot: nat) returns (r: Flow)
      requires Valid()
      modifies `stack
      ensures Matches(r, M.SetLocal(old(State()), slot))
    {
      var frame := frames[|frames| - 1];
      if frame.base + slot >= |stack| { return Halt(M.Stuck); }
      stack := stack[frame.base + slot := Peek(0)];
      return Go;
    }

    method GetGlobal(index: nat) returns (r: Flow)
      requires Valid()
      modifies `stack
      ensures Matches(r, M.GetGlobal(old(State()), index))
    {
      if index >= |globals| { return Halt(M.Stuck); }
      var value := globals[index];
      if value.None? { return Halt(M.Fault(UndefinedVariable)); }
      r := Push(value.value);
    }

    method SetGlobal(index: nat) returns (r: Flow)
      requires Valid()
      modifies `globals
      ensures Matches(r, M.SetGlobal(old(State()), index))
    {
      if index >= |globals| || stack == [] { return Halt(M.Stuck); }
      if globals[index].None? { return Halt(M.Fault(UndefinedVariable)); }
      globals := globals[index := Some(Peek(0))];
      return Go;
    }

    method DefineGlobal(index: nat) returns (r: Flow)
      requires Valid()
      modifies `globals, `stack
      ensures Matches(r, M.DefineGlobal(old(State()), index))
    {
      if index >= |globals| || stack == [] { return Halt(M.Stuck); }
      globals := globals[index := Some(Peek(0))];
      var _ := Pop();
      return Go;
    }

    // ----- jumps -----

    lemma StuckMatches()
      ensures Matches(Halt(M.Stuck), M.Stuck)
    {
    }

    lemma InFrame()
      requires Valid()
      ensures State().fn == frames[|frames| - 1].fn && State().ip == frames[|frames| - 1].ip
    {
    }

    method SetPointer(ip: nat)
      requires Valid()
      modifies `frames
      ensures Valid() && State() == old(State()).(ip := ip)
    {
      frames := frames[|frames| - 1 := frames[|frames| - 1].(ip := ip)];
    }

    method Jump(offset: nat) returns (r: Flow)
      requires Valid()
      modifies `frames
      ensures Matches(r, M.Jump(old(State()), old(State()).ip + offset))
    {
      SetPointer(frames[|frames| - 1].ip + offset);
      return Go;
    }

    method JumpIfFalse(offset: nat) returns (r: Flow)
      requires Valid()
      modifies `frames
      ensures Matches(r, M.JumpIfFalse(old(State()), offset))
      ensures old(stack) != [] ==>
        var v, s := old(stack)[|old(stack)| - 1], old(State());
        r == Go && Valid() && State() == if v == Nil || v == Bool(false) then s.(ip := s.ip + offset) else s
    {
      if stack == [] { return Halt(M.Stuck); }
      SetPointer(frames[|frames| - 1].ip + if Peek(0).IsFalsey() then offset else 0);
      return Go;
    }

    method JumpBack(offset: nat) returns (r: Flow)
      requires Valid()
      modifies `frames
      ensures Matches(r, M.Jump(old(State()), old(State()).ip - offset))
    {
      var ip := frames[|frames| - 1].ip;
      if ip < offset { return Halt(M.Stuck); }
      SetPointer(ip - offset);
      return Go;
    }

    // ----- calls -----

    method CallValue(argc: nat) returns (r: Flow)
      requires Valid()
      modifies `frames, `capacity
      ensures Matches(r, M.CallStep(img, old(State()), argc))
    {
      if argc >= |stack| { return Halt(M.Stuck); }
      var callee := Peek(argc);
      if !callee.Closure? || callee.def >= |img.protos| { return Halt(M.Fault(NotCallable)); }
      var function_ := img.protos[callee.def];
      if argc != function_.arity { return Halt(M.Fault(WrongArgumentCount)); }
      if |frames| >= Evaluator.MAX_FRAMES { return Halt(M.Fault(StackOverflow)); }
      EnsureStackSpace(|stack| + function_.maxSlots);
      frames := frames + [M.Frame(callee.def, 0, |stack| - argc - 1)];
      assert frames[..|frames| - 1] == old(frames);
      assert old(frames) == old(frames)[..|old(frames)| - 1] + [old(frames)[|old(frames)| - 1]];
      return Go;
    }

    method EnsureStackSpace(needed: nat)
      modifies `capacity
      ensures capacity == Max(old(capacity), needed)
    {
      if capacity >= needed { return; }
      capacity := needed;
    }

    method Return() returns (r: Flow)
      requires Valid()
      modifies `frames, `stack
      ensures Matches(r, M.ReturnStep(old(State())))
    {
      if stack == [] { return Halt(M.Stuck); }
      var frame := frames[|frames| - 1];
      if frame.base > |stack| - 1 { return Halt(M.Stuck); }
      var result := Pop();
      frames := frames[..|frames| - 1];
      if frames == [] {
        return if |stack| == 1 then Halt(M.Finished(globals)) else Halt(M.Stuck);
      }
      stack := stack[..frame.base];
      r := Push(result);
    }

    method DoClosure(index: nat) returns (r: Flow)
      requires Valid()
      modifies `stack, `serial
      ensures Matches(r, M.Exec(img, old(State()), MakeClosure(index, [])))
    {
      var constants := img.ProtoOf(frames[|frames| - 1].fn).consts;
      if index >= |constants| || !constants[index].Function? { return Halt(M.Stuck); }
      var made := Value.Closure(constants[index].def, serial);
      serial := serial + 1;
      r := Push(made);
    }

    method DoEndScope(slotCount: nat) returns (r: Flow)
      requires Valid()
      modifies `stack
      ensures Matches(r, M.EndScopeStep(old(State()), slotCount))
    {
      if slotCount + 1 > |stack| { return Halt(M.Stuck); }
      var result := Pop();
      for i := 0 to slotCount
        invariant Valid() && |old(stack)| == |stack| + 1 + i && stack == old(stack)[..|old(stack)| - 1 - i]
      {
        var _ := Pop();
      }
      r := Push(result);
    }

    method DropTop() returns (r: Flow)
      requires Valid()
      modifies `stack
      ensures Matches(r, M.Exec(img, old(State()), Plain(POP, 0)))
    {
      if stack == [] { return Halt(M.Stuck); }
      var _ := Pop();
      return Go;
    }

    // ----- the loop -----

    method Constant(index: nat) returns (r: Flow)
      requires Valid()
      modifies `stack
      ensures Matches(r, M.Exec(img, old(State()), Plain(CONSTANT, index)))
    {
      var constants := img.ProtoOf(frames[|frames| - 1].fn).consts;
      if index >= |constants| { return Halt(M.Stuck); }
      r := Push(constants[index]);
    }

    method Execute(op: OpCode, operand: nat) returns (r: Flow)
      requires Valid() && op !in {CLOSURE, CLOSURE_LONG}
      modifies this
      ensures Matches(r, M.Exec(img, old(State()), Plain(op, operand)))
    {
      hide State;
      hide M.Push;
      hide M.BinaryStep;
      hide M.UnaryStep;
      hide M.CallStep;
      hide M.ReturnStep;
      hide M.EndScopeStep;
      hide M.GetLocal;
      hide M.SetLocal;
      hide M.GetGlobal;
      hide M.SetGlobal;
      hide M.DefineGlobal;
      hide M.JumpIfFalse;
      match op
      case CONSTANT | CONSTANT_LONG => r := Constant(operand);
      case NIL => r := Push(Nil);
      case TRUE => r := Push(Bool(true));
      case FALSE => r := Push(Bool(false));
      case POP => r := DropTop();
      case GET_LOCAL | GET_LOCAL_LONG => r := GetLocal(operand);
      case SET_LOCAL | SET_LOCAL_LONG => r := SetLocal(operand);
      case GET_GLOBAL | GET_GLOBAL_LONG => r := GetGlobal(operand);
      case SET_GLOBAL | SET_GLOBAL_LONG => r := SetGlobal(operand);
      case DEFINE_GLOBAL | DEFINE_GLOBAL_LONG => r := DefineGlobal(operand);
      case EQUAL => r := EqualOp(false);
      case NOT_EQUAL => r := EqualOp(true);
      case GREATER => r := BinaryOperation(Gt);
      case GREATER_EQUAL => r := BinaryOperation(Ge);
      case LESS => r := BinaryOperation(Lt);
      case LESS_EQUAL => r := BinaryOperation(Le);
      case ADD => r := BinaryOperation(Add);
      case SUBSTRACT => r := BinaryOperation(Sub);
      case MULTIPLY => r := BinaryOperation(Mul);
      case DIVIDE => r := BinaryOperation(Div);
      case NOT => r := NotOp();
      case NEGATE => r := NegateOp();
      case JUMP => r := Jump(operand);
      case JUMP_IF_FALSE => r := JumpIfFalse(operand);
      case LOOP => r := JumpBack(operand);
      case CALL => r := CallValue(operand);
      case END_SCOPE | END_SCOPE_LONG => r := DoEndScope(operand);
      case RETURN => r := Return();
      case _ => return Halt(M.Stuck);
    }

    /** Reads the next opcode and its operand, byte by byte. */
    method Fetch() returns (r: Option<(OpCode, nat)>)
      requires Valid()
      modifies `frames
      ensures Valid()
      ensures r.None? ==> M.Step(img, old(State())) == M.Stuck
      ensures r.Some? ==> M.Step(img, old(State())) == M.Exec(img, State(), InstrOf(r.value.0, r.value.1))
    {
      hide InstrOf;
      hide M.Step;
      hide M.Exec;
      hide M.Image.ProtoOf;
      hide OpOfByte;
      hide ReadOperand;
      hide OperandWidth;
      hide State;
      InFrame();
      Fetched(img, State());
      var frame := frames[|frames| - 1];
      var code := img.ProtoOf(frame.fn).code;
      if frame.ip >= |code| { return None; }
      var instruction := OpOfByte(code[frame.ip]);
      if instruction.None? { return None; }
      var op := instruction.value;
      var length := OperandWidth(op);
      if op == END || frame.ip + 1 + length > |code| { return None; }
      var operand := ReadMultibyteOperand(code, frame.ip + 1, length);
      SetPointer(frame.ip + 1 + length);
      return Some((op, operand));
    }

    /** Reads one instruction and executes it. */
    method Dispatch() returns (r: Flow)
      requires Valid()
      modifies this
      ensures Matches(r, M.Step(img, old(State())))
    {
      hide M.Step;
      hide M.Exec;
      hide State;
      hide Matches;
      var next := Fetch();
      StuckMatches();
      match next
      case None => return Halt(M.Stuck);
      case Some((op, operand)) =>
        if op == CLOSURE || op == CLOSURE_LONG {
          r := DoClosure(operand);
        } else {
          r := Execute(op, operand);
        }
    }

    /** The loop, for at most `limit` instructions. */
    method Run(limit: nat) returns (r: Flow)
      requires Valid()
      modifies this
      ensures Matches(r, M.Run(img, old(State()), limit))
    {
      hide M.Step;
      ghost var spec := M.Run(img, State(), limit);
      for i := 0 to limit
        invariant Valid() && spec == M.Run(img, State(), limit - i)
      {
        r := Dispatch();
        if r.Halt? {
          return;
        }
      }
      return Go;
    }
  }
}
