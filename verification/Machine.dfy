/** The dispatch loop: one step per instruction, on bytes. */
module Machine {
  import opened Bytecode
  import opened Values
  import Evaluator

  datatype Frame = Frame(fn: nat, ip: nat, base: nat)

  /** The current frame is `fn`, `ip`, `base`; `frames` are the ones below it. A global
      that is declared but not yet defined is None. */
  datatype VM = VM(
    stack: seq<Value>, capacity: nat,
    fn: nat, ip: nat, base: nat, frames: seq<Frame>,
    globals: seq<Option<Value>>, serial: nat)

  /** A compiled function. */
  datatype Proto = Proto(arity: nat, code: seq<Byte>, consts: seq<Value>, maxSlots: nat)

  /** All compiled functions, and the code of the script that uses them. */
  datatype Image = Image(protos: seq<Proto>, script: Proto, fl: FloatOps)
  {
    function ProtoOf(fn: nat): Proto { if fn < |protos| then protos[fn] else script }
  }

  /** `Overflow` is a push with no reserved slot left: the failed capacity assertion. */
  datatype Status =
    | Running(vm: VM)
    | Fault(error: Error)
    | Finished(globals: seq<Option<Value>>)
    | Overflow
    | Stuck

  function NoCaptures(i: nat): nat { 0 }

  function Push(s: VM, v: Value): Status {
    if |s.stack| < s.capacity then Running(s.(stack := s.stack + [v])) else Overflow
  }

  function Peek(s: VM, distance: nat): Value
    requires distance < |s.stack|
  {
    s.stack[|s.stack| - 1 - distance]
  }

  function Drop(s: VM, n: nat): VM
    requires n <= |s.stack|
  {
    s.(stack := s.stack[..|s.stack| - n])
  }

  /** Replaces the top `n` operands by a result. */
  function Yield(s: VM, n: nat, r: Result<Value>): Status
    requires 1 <= n <= |s.stack|
  {
    match r
    case Ok(v) => Running(s.(stack := s.stack[..|s.stack| - n] + [v]))
    case Err(e) => Fault(e)
  }

  function BinaryStep(img: Image, s: VM, op: BinaryOp): Status {
    if |s.stack| < 2 then Stuck
    else Yield(s, 2, ApplyBinary(img.fl, op, Peek(s, 1), Peek(s, 0)))
  }

  function UnaryStep(img: Image, s: VM, op: UnaryOp): Status {
    if |s.stack| < 1 then Stuck
    else Yield(s, 1, ApplyUnary(img.fl, op, Peek(s, 0)))
  }

  function GetLocal(s: VM, slot: nat): Status {
    if s.base + slot < |s.stack| then Push(s, s.stack[s.base + slot]) else Stuck
  }

  function SetLocal(s: VM, slot: nat): Status {
    if s.base + slot < |s.stack| then Running(s.(stack := s.stack[s.base + slot := Peek(s, 0)])) else Stuck
  }

  function GetGlobal(s: VM, index: nat): Status {
    if index >= |s.globals| then Stuck
    else if s.globals[index].None? then Fault(UndefinedVariable)
    else Push(s, s.globals[index].value)
  }

  function SetGlobal(s: VM, index: nat): Status {
    if index >= |s.globals| || s.stack == [] then Stuck
    else if s.globals[index].None? then Fault(UndefinedVariable)
    else Running(s.(globals := s.globals[index := Some(Peek(s, 0))]))
  }

  function DefineGlobal(s: VM, index: nat): Status {
    if index >= |s.globals| || s.stack == [] then Stuck
    else Running(Drop(s.(globals := s.globals[index := Some(Peek(s, 0))]), 1))
  }

  function Jump(s: VM, target: int): Status {
    if target >= 0 then Running(s.(ip := target)) else Stuck
  }

  function JumpIfFalse(s: VM, offset: nat): Status {
    if s.stack == [] then Stuck
    else if Peek(s, 0).IsFalsey() then Jump(s, s.ip + offset)
    else Running(s)
  }

  /** Reserves the callee's slots, then opens its frame over callee and arguments. */
  function CallStep(img: Image, s: VM, argc: nat): Status {
    if argc >= |s.stack| then Stuck else
    var callee := Peek(s, argc);
    if !callee.Closure? || callee.def >= |img.protos| then Fault(NotCallable) else
    var p := img.protos[callee.def];
    if argc != p.arity then Fault(WrongArgumentCount)
    else if |s.frames| + 1 >= Evaluator.MAX_FRAMES then Fault(StackOverflow)
    else Running(s.(capacity := Max(s.capacity, |s.stack| + p.maxSlots),
                    frames := s.frames + [Frame(s.fn, s.ip, s.base)],
                    fn := callee.def, ip := 0, base := |s.stack| - argc - 1))
  }

  function ReturnStep(s: VM): Status {
    if s.stack == [] || s.base > |s.stack| - 1 then Stuck
    else if s.frames == [] then if |s.stack| == 2 then Finished(s.globals) else Stuck
    else
      var f := s.frames[|s.frames| - 1];
      Running(s.(stack := s.stack[..s.base] + [Peek(s, 0)],
                 frames := s.frames[..|s.frames| - 1], fn := f.fn, ip := f.ip, base := f.base))
  }

  function EndScopeStep(s: VM, n: nat): Status {
    if n + 1 > |s.stack| then Stuck
    else Running(s.(stack := s.stack[..|s.stack| - n - 1] + [Peek(s, 0)]))
  }

  /** Executes an instruction whose bytes have been read: `s.ip` is past it. */
  function Exec(img: Image, s: VM, i: Instr): Status {
    match i
    case BreakHole => Stuck
    case MakeClosure(index, captures) =>
      var consts := img.ProtoOf(s.fn).consts;
      if captures != [] || index >= |consts| || !consts[index].Function? then Stuck
      else Push(s.(serial := s.serial + 1), Value.Closure(consts[index].def, s.serial))
    case Plain(op, operand) =>
      match op
      case CONSTANT | CONSTANT_LONG =>
        var consts := img.ProtoOf(s.fn).consts;
        if operand < |consts| then Push(s, consts[operand]) else Stuck
      case NIL => Push(s, Nil)
      case TRUE => Push(s, Bool(true))
      case FALSE => Push(s, Bool(false))
      case POP => if s.stack == [] then Stuck else Running(Drop(s, 1))
      case GET_LOCAL | GET_LOCAL_LONG => GetLocal(s, operand)
      case SET_LOCAL | SET_LOCAL_LONG => SetLocal(s, operand)
      case GET_GLOBAL | GET_GLOBAL_LONG => GetGlobal(s, operand)
      case SET_GLOBAL | SET_GLOBAL_LONG => SetGlobal(s, operand)
      case DEFINE_GLOBAL | DEFINE_GLOBAL_LONG => DefineGlobal(s, operand)
      case EQUAL => BinaryStep(img, s, Eq)
      case NOT_EQUAL => BinaryStep(img, s, Ne)
      case GREATER => BinaryStep(img, s, Gt)
      case GREATER_EQUAL => BinaryStep(img, s, Ge)
      case LESS => BinaryStep(img, s, Lt)
      case LESS_EQUAL => BinaryStep(img, s, Le)
      case ADD => BinaryStep(img, s, Add)
      case SUBSTRACT => BinaryStep(img, s, Sub)
      case MULTIPLY => BinaryStep(img, s, Mul)
      case DIVIDE => BinaryStep(img, s, Div)
      case NOT => UnaryStep(img, s, Not)
      case NEGATE => UnaryStep(img, s, Neg)
      case JUMP => Jump(s, s.ip + operand)
      case JUMP_IF_FALSE => JumpIfFalse(s, operand)
      case LOOP => Jump(s, s.ip - operand)
      case CALL => CallStep(img, s, operand)
      case END_SCOPE | END_SCOPE_LONG => EndScopeStep(s, operand)
      case RETURN => ReturnStep(s)
      case _ => Stuck
  }

  function Step(img: Image, s: VM): Status {
    match Decode(img.ProtoOf(s.fn).code, s.ip, NoCaptures)
    case None => Stuck
    case Some((i, next)) => Exec(img, s.(ip := next), i)
  }

  function Run(img: Image, s: VM, n: nat): Status
    decreases n
  {
    if n == 0 then Running(s) else
    match Step(img, s)
    case Running(s') => Run(img, s', n - 1)
    case other => other
  }

  lemma {:induction false} RunAppend(img: Image, s: VM, n: nat, t: VM, m: nat)
    requires Run(img, s, n) == Running(t)
    ensures Run(img, s, n + m) == Run(img, t, m)
    decreases n
  {
    hide Step;
    if n > 0 { RunAppend(img, Step(img, s).vm, n - 1, t, m); }
  }

  lemma RunOne(img: Image, s: VM)
    ensures Run(img, s, 1) == Step(img, s)
  {
    hide Step;
    match Step(img, s)
    case Running(s') => assert Run(img, s', 0) == Running(s');
    case other =>
  }

  /** Stepping where a plain instruction is loaded executes it. */
  lemma StepAt(img: Image, s: VM, op: OpCode, operand: nat)
    requires Encodable(Plain(op, operand))
    requires CodeAt(img.ProtoOf(s.fn).code, s.ip, [Plain(op, operand)])
    ensures Run(img, s, 1) == Exec(img, s.(ip := s.ip + 1 + OperandWidth(op)), Plain(op, operand))
  {
    hide Decode;
    hide Exec;
    hide Encode;
    hide Encodable;
    EncodeOne(Plain(op, operand));
    DecodeAt(img.ProtoOf(s.fn).code, s.ip, Plain(op, operand), NoCaptures);
    assert |Encode(Plain(op, operand))| == 1 + OperandWidth(op) by { PlainSize(op, operand); }
    RunOne(img, s);
  }

  lemma StepClosureAt(img: Image, s: VM, index: nat)
    requires index < MAX_INDEX
    requires CodeAt(img.ProtoOf(s.fn).code, s.ip, [MakeClosure(index, [])])
    ensures Run(img, s, 1) == Exec(img, s.(ip := s.ip + Size([MakeClosure(index, [])])), MakeClosure(index, []))
  {
    hide Decode;
    hide Exec;
    hide Encode;
    EncodeOne(MakeClosure(index, []));
    DecodeAt(img.ProtoOf(s.fn).code, s.ip, MakeClosure(index, []), NoCaptures);
    RunOne(img, s);
  }

  lemma PlainSize(op: OpCode, operand: nat)
    ensures |Encode(Plain(op, operand))| == 1 + OperandWidth(op)
    ensures Size([Plain(op, operand)]) == 1 + OperandWidth(op)
  {
    hide OpByte;
    hide OperandWidth;
    EncodeOne(Plain(op, operand));
  }
}
