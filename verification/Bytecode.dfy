/** The instruction set: opcodes, operand widths, stack effects, and the byte
    encoding that the compiler writes and the virtual machine reads back. */
module Bytecode {
  type Byte = b: int | 0 <= b < 256

  datatype Option<+T> = None | Some(value: T)

  function Max(a: int, b: int): int { if a > b then a else b }

  datatype OpCode =
    | CONSTANT | CONSTANT_LONG
    | NIL | TRUE | FALSE | POP
    | GET_LOCAL | GET_LOCAL_LONG | SET_LOCAL | SET_LOCAL_LONG
    | GET_GLOBAL | GET_GLOBAL_LONG | SET_GLOBAL | SET_GLOBAL_LONG
    | DEFINE_GLOBAL | DEFINE_GLOBAL_LONG
    | GET_UPVALUE | GET_UPVALUE_LONG | SET_UPVALUE | SET_UPVALUE_LONG
    | EQUAL | NOT_EQUAL | GREATER | GREATER_EQUAL | LESS | LESS_EQUAL
    | ADD | SUBSTRACT | MULTIPLY | DIVIDE
    | NOT | NEGATE
    | JUMP | JUMP_IF_FALSE | LOOP
    | CALL | CLOSURE | CLOSURE_LONG
    | END_SCOPE | END_SCOPE_LONG
    | RETURN | END

  /** The byte that stands for an opcode: its position in the enumeration. */
  function OpByte(op: OpCode): (b: Byte)
    ensures b < 42
  {
    match op
    case CONSTANT => 0 case CONSTANT_LONG => 1 case NIL => 2 case TRUE => 3
    case FALSE => 4 case POP => 5 case GET_LOCAL => 6 case GET_LOCAL_LONG => 7
    case SET_LOCAL => 8 case SET_LOCAL_LONG => 9 case GET_GLOBAL => 10
    case GET_GLOBAL_LONG => 11 case SET_GLOBAL => 12 case SET_GLOBAL_LONG => 13
    case DEFINE_GLOBAL => 14 case DEFINE_GLOBAL_LONG => 15 case GET_UPVALUE => 16
    case GET_UPVALUE_LONG => 17 case SET_UPVALUE => 18 case SET_UPVALUE_LONG => 19
    case EQUAL => 20 case NOT_EQUAL => 21 case GREATER => 22 case GREATER_EQUAL => 23
    case LESS => 24 case LESS_EQUAL => 25 case ADD => 26 case SUBSTRACT => 27
    case MULTIPLY => 28 case DIVIDE => 29 case NOT => 30 case NEGATE => 31
    case JUMP => 32 case JUMP_IF_FALSE => 33 case LOOP => 34 case CALL => 35
    case CLOSURE => 36 case CLOSURE_LONG => 37 case END_SCOPE => 38
    case END_SCOPE_LONG => 39 case RETURN => 40 case END => 41
  }

  function OpOfByte(b: Byte): Option<OpCode> {
    match b
    case 0 => Some(CONSTANT) case 1 => Some(CONSTANT_LONG) case 2 => Some(NIL)
    case 3 => Some(TRUE) case 4 => Some(FALSE) case 5 => Some(POP)
    case 6 => Some(GET_LOCAL) case 7 => Some(GET_LOCAL_LONG) case 8 => Some(SET_LOCAL)
    case 9 => Some(SET_LOCAL_LONG) case 10 => Some(GET_GLOBAL) case 11 => Some(GET_GLOBAL_LONG)
    case 12 => Some(SET_GLOBAL) case 13 => Some(SET_GLOBAL_LONG) case 14 => Some(DEFINE_GLOBAL)
    case 15 => Some(DEFINE_GLOBAL_LONG) case 16 => Some(GET_UPVALUE) case 17 => Some(GET_UPVALUE_LONG)
    case 18 => Some(SET_UPVALUE) case 19 => Some(SET_UPVALUE_LONG) case 20 => Some(EQUAL)
    case 21 => Some(NOT_EQUAL) case 22 => Some(GREATER) case 23 => Some(GREATER_EQUAL)
    case 24 => Some(LESS) case 25 => Some(LESS_EQUAL) case 26 => Some(ADD)
    case 27 => Some(SUBSTRACT) case 28 => Some(MULTIPLY) case 29 => Some(DIVIDE)
    case 30 => Some(NOT) case 31 => Some(NEGATE) case 32 => Some(JUMP)
    case 33 => Some(JUMP_IF_FALSE) case 34 => Some(LOOP) case 35 => Some(CALL)
    case 36 => Some(CLOSURE) case 37 => Some(CLOSURE_LONG) case 38 => Some(END_SCOPE)
    case 39 => Some(END_SCOPE_LONG) case 40 => Some(RETURN) case 41 => Some(END)
    case _ => None
  }

  lemma OpByteRoundTrip(op: OpCode)
    ensures OpOfByte(OpByte(op)) == Some(op)
  {
    if OpByte(op) < 21 { LowOpByteRoundTrip(op); } else { HighOpByteRoundTrip(op); }
  }

  lemma LowOpByteRoundTrip(op: OpCode)
    requires OpByte(op) < 21
    ensures OpOfByte(OpByte(op)) == Some(op)
  {
  }

  lemma HighOpByteRoundTrip(op: OpCode)
    requires OpByte(op) >= 21
    ensures OpOfByte(OpByte(op)) == Some(op)
  {
  }

  /** Number of operand bytes after an opcode (the `length` column of the table). */
  function OperandWidth(op: OpCode): nat {
    match op
    case CONSTANT | GET_LOCAL | SET_LOCAL | GET_GLOBAL | SET_GLOBAL | DEFINE_GLOBAL
      | GET_UPVALUE | SET_UPVALUE | CALL | CLOSURE | END_SCOPE => 1
    case CONSTANT_LONG | GET_LOCAL_LONG | SET_LOCAL_LONG | GET_GLOBAL_LONG
      | SET_GLOBAL_LONG | DEFINE_GLOBAL_LONG | GET_UPVALUE_LONG | SET_UPVALUE_LONG
      | CLOSURE_LONG | END_SCOPE_LONG => 3
    case JUMP | JUMP_IF_FALSE | LOOP => 2
    case _ => 0
  }

  /** How much an instruction is counted to change the stack height. */
  function StackEffect(op: OpCode, operand: nat): int {
    match op
    case CALL | END_SCOPE | END_SCOPE_LONG => 0 - operand
    case CONSTANT | CONSTANT_LONG | NIL | TRUE | FALSE | GET_LOCAL | GET_LOCAL_LONG
      | GET_GLOBAL | GET_GLOBAL_LONG | GET_UPVALUE | GET_UPVALUE_LONG
      | CLOSURE | CLOSURE_LONG => 1
    case POP | DEFINE_GLOBAL | DEFINE_GLOBAL_LONG | EQUAL | NOT_EQUAL | GREATER
      | GREATER_EQUAL | LESS | LESS_EQUAL | ADD | SUBSTRACT | MULTIPLY | DIVIDE => -1
    case _ => 0
  }

  /** The opcode that directly follows, which is the long form of a short one. */
  function LongForm(op: OpCode): OpCode {
    match op
    case CONSTANT => CONSTANT_LONG
    case GET_LOCAL => GET_LOCAL_LONG
    case SET_LOCAL => SET_LOCAL_LONG
    case GET_GLOBAL => GET_GLOBAL_LONG
    case SET_GLOBAL => SET_GLOBAL_LONG
    case DEFINE_GLOBAL => DEFINE_GLOBAL_LONG
    case GET_UPVALUE => GET_UPVALUE_LONG
    case SET_UPVALUE => SET_UPVALUE_LONG
    case CLOSURE => CLOSURE_LONG
    case END_SCOPE => END_SCOPE_LONG
    case _ => op
  }

  const MAX_INDEX := 0x100_0000
  const MAX_JUMP := 0xffff

  // ----- little-endian operands -----

  function Pow256(n: nat): (p: nat)
    ensures p > 0
  {
    if n == 0 then 1 else 256 * Pow256(n - 1)
  }

  /** The low `n` bytes of `v`, least significant first. */
  function Operand(n: nat, v: nat): (bs: seq<Byte>)
    ensures |bs| == n
  {
    if n == 0 then [] else [v % 256] + Operand(n - 1, v / 256)
  }

  function ReadOperand(bs: seq<Byte>): nat {
    if bs == [] then 0 else bs[0] + 256 * ReadOperand(bs[1..])
  }

  /** A value that fits its operand width is read back unchanged. */
  lemma {:induction false} OperandRoundTrip(n: nat, v: nat)
    requires v < Pow256(n)
    ensures ReadOperand(Operand(n, v)) == v
  {
    if n == 0 {
    } else {
      OperandRoundTrip(n - 1, v / 256);
      assert Operand(n, v)[1..] == Operand(n - 1, v / 256);
    }
  }

  // ----- instructions -----

  datatype Capture = Capture(isLocal: bool, index: nat)

  /** One emitted instruction. `BreakHole` is the placeholder jump of a `break`:
      an END opcode followed by a two-byte operand. */
  datatype Instr =
    | Plain(op: OpCode, operand: nat)
    | MakeClosure(index: nat, captures: seq<Capture>)
    | BreakHole

  /** Short form below 256, long form from there on. */
  function VarLength(op: OpCode, index: nat): Instr {
    Plain(if index < 256 then op else LongForm(op), index)
  }

  /** How many bytes a captured index takes: at least one. */
  function CaptureWidth(index: nat): (n: nat)
    ensures n >= 1
    ensures index < Pow256(n)
    ensures n == 1 || Pow256(n - 1) <= index
  {
    if index < 256 then assert Pow256(1) == 256 by { assert Pow256(0) == 1; } 1
    else 1 + CaptureWidth(index / 256)
  }

  function EncodeCapture(c: Capture): seq<Byte> {
    var n := CaptureWidth(c.index);
    [((if c.isLocal then 128 else 0) + n % 128) as Byte] + Operand(n, c.index)
  }

  function EncodeCaptures(cs: seq<Capture>): seq<Byte> {
    if cs == [] then [] else EncodeCapture(cs[0]) + EncodeCaptures(cs[1..])
  }

  function Encode(i: Instr): (bs: seq<Byte>)
    ensures bs != []
  {
    match i
    case Plain(op, operand) => [OpByte(op)] + Operand(OperandWidth(op), operand)
    case MakeClosure(index, captures) =>
      var v := VarLength(CLOSURE, index);
      [OpByte(v.op)] + Operand(OperandWidth(v.op), index) + EncodeCaptures(captures)
    case BreakHole => [OpByte(END)] + Operand(2, MAX_JUMP)
  }

  function EncodeAll(ins: seq<Instr>): seq<Byte> {
    if ins == [] then [] else Encode(ins[0]) + EncodeAll(ins[1..])
  }

  function Size(ins: seq<Instr>): nat { |EncodeAll(ins)| }

  lemma {:induction false} EncodeAllAppend(a: seq<Instr>, b: seq<Instr>)
    ensures EncodeAll(a + b) == EncodeAll(a) + EncodeAll(b)
  {
    hide Encode;
    if a == [] {
      assert a + b == b;
    } else {
      EncodeAllAppend(a[1..], b);
      assert (a + b)[1..] == a[1..] + b;
      var first, rest, more := Encode(a[0]), EncodeAll(a[1..]), EncodeAll(b);
      assert EncodeAll(a + b) == first + (rest + more) && EncodeAll(a) == first + rest;
      hide EncodeAll;
    }
  }

  lemma EncodeOne(i: Instr)
    ensures EncodeAll([i]) == Encode(i)
  {
    assert [i][1..] == [];
  }

  // ----- decoding -----

  /** An operand fits its width: what decoding can recover. */
  predicate Encodable(i: Instr) {
    match i
    case Plain(op, operand) =>
      op !in {CLOSURE, CLOSURE_LONG, END} && operand < Pow256(OperandWidth(op))
    case MakeClosure(index, captures) =>
      index < MAX_INDEX && forall c <- captures :: c.index < MAX_INDEX
    case BreakHole => false
  }

  /** Reads one capture: flags byte, then the index in as many bytes as it says. */
  function DecodeCapture(code: seq<Byte>, pc: nat): Option<(Capture, nat)> {
    if pc >= |code| then None else
    var n := code[pc] % 128;
    if n < 1 || n > 3 || pc + 1 + n > |code| then None else
    Some((Capture(code[pc] >= 128, ReadOperand(code[pc + 1..pc + 1 + n])), pc + 1 + n))
  }

  function DecodeCaptures(code: seq<Byte>, pc: nat, count: nat): Option<(seq<Capture>, nat)>
    decreases count
  {
    if count == 0 then Some(([], pc)) else
    match DecodeCapture(code, pc)
    case None => None
    case Some((c, next)) =>
      match DecodeCaptures(code, next, count - 1)
      case None => None
      case Some((rest, end)) => Some(([c] + rest, end))
  }

  /** Reads the instruction at `pc` the way the dispatch loop does; `captureCount`
      gives the upvalue count of the function at a constant index. */
  function Decode(code: seq<Byte>, pc: nat, captureCount: nat -> nat): Option<(Instr, nat)> {
    if pc >= |code| then None else
    match OpOfByte(code[pc])
    case None => None
    case Some(op) =>
      var n := OperandWidth(op);
      if op == END || pc + 1 + n > |code| then None else
      var operand := ReadOperand(code[pc + 1..pc + 1 + n]);
      if op == CLOSURE || op == CLOSURE_LONG then
        match DecodeCaptures(code, pc + 1 + n, captureCount(operand))
        case None => None
        case Some((captures, next)) => Some((MakeClosure(operand, captures), next))
      else
        Some((Plain(op, operand), pc + 1 + n))
  }

  /** `bs` stands in `code` at `pc`. */
  ghost predicate BytesAt(code: seq<Byte>, pc: nat, bs: seq<Byte>) {
    pc + |bs| <= |code| && code[pc..pc + |bs|] == bs
  }

  ghost predicate CodeAt(code: seq<Byte>, pc: nat, ins: seq<Instr>) {
    BytesAt(code, pc, EncodeAll(ins))
  }

  lemma BytesAtSplit(code: seq<Byte>, pc: nat, a: seq<Byte>, b: seq<Byte>)
    ensures BytesAt(code, pc, a + b) <==> BytesAt(code, pc, a) && BytesAt(code, pc + |a|, b)
  {
    if BytesAt(code, pc, a + b) {
      assert code[pc..pc + |a|] == code[pc..pc + |a + b|][..|a|] == a;
      assert code[pc + |a|..pc + |a| + |b|] == code[pc..pc + |a + b|][|a|..] == b;
    }
    if BytesAt(code, pc, a) && BytesAt(code, pc + |a|, b) {
      assert code[pc..pc + |a + b|] == code[pc..pc + |a|] + code[pc + |a|..pc + |a| + |b|];
    }
  }

  lemma CodeAtSplit(code: seq<Byte>, pc: nat, a: seq<Instr>, b: seq<Instr>)
    ensures CodeAt(code, pc, a + b) <==> CodeAt(code, pc, a) && CodeAt(code, pc + Size(a), b)
    ensures Size(a + b) == Size(a) + Size(b)
  {
    hide BytesAt;
    hide EncodeAll;
    EncodeAllAppend(a, b);
    BytesAtSplit(code, pc, EncodeAll(a), EncodeAll(b));
  }

  lemma DecodeCaptureAt(code: seq<Byte>, pc: nat, c: Capture)
    requires c.index < MAX_INDEX
    requires BytesAt(code, pc, EncodeCapture(c))
    ensures DecodeCapture(code, pc) == Some((c, pc + |EncodeCapture(c)|))
  {
    hide ReadOperand;
    hide Operand;
    var n := CaptureWidth(c.index);
    CaptureWidthBound(c.index);
    var bs := EncodeCapture(c);
    assert code[pc] == code[pc..pc + |bs|][0];
    assert code[pc + 1..pc + 1 + n] == code[pc..pc + |bs|][1..] == Operand(n, c.index);
    OperandRoundTrip(n, c.index);
  }

  lemma PowersOf256()
    ensures Pow256(0) == 1 && Pow256(1) == 0x100 && Pow256(2) == 0x1_0000 && Pow256(3) == MAX_INDEX
  {
    assert Pow256(1) == 256 * Pow256(0);
    assert Pow256(2) == 256 * Pow256(1);
    assert Pow256(3) == 256 * Pow256(2);
  }

  lemma CaptureWidthBound(index: nat)
    requires index < MAX_INDEX
    ensures CaptureWidth(index) <= 3
  {
    var i1 := index / 256;
    var i2 := i1 / 256;
    assert i2 < 256;
    assert CaptureWidth(i2) == 1;
    assert CaptureWidth(i1) <= 2;
  }

  lemma {:induction false} DecodeCapturesAt(code: seq<Byte>, pc: nat, cs: seq<Capture>)
    requires forall c <- cs :: c.index < MAX_INDEX
    requires BytesAt(code, pc, EncodeCaptures(cs))
    ensures DecodeCaptures(code, pc, |cs|) == Some((cs, pc + |EncodeCaptures(cs)|))
    decreases cs
  {
    hide EncodeCapture;
    hide DecodeCapture;
    if cs == [] {
    } else {
      BytesAtSplit(code, pc, EncodeCapture(cs[0]), EncodeCaptures(cs[1..]));
      DecodeCaptureAt(code, pc, cs[0]);
      DecodeCapturesAt(code, pc + |EncodeCapture(cs[0])|, cs[1..]);
      assert [cs[0]] + cs[1..] == cs;
    }
  }

  /** The opcode and operand bytes alone. */
  lemma FetchAt(code: seq<Byte>, pc: nat, op: OpCode, operand: nat)
    requires operand < Pow256(OperandWidth(op))
    requires BytesAt(code, pc, [OpByte(op)] + Operand(OperandWidth(op), operand))
    ensures pc + 1 + OperandWidth(op) <= |code|
    ensures OpOfByte(code[pc]) == Some(op)
    ensures ReadOperand(code[pc + 1..pc + 1 + OperandWidth(op)]) == operand
  {
    hide OpByte;
    hide OpOfByte;
    hide OperandWidth;
    hide ReadOperand;
    hide Operand;
    hide Pow256;
    var n := OperandWidth(op);
    var bs := [OpByte(op)] + Operand(n, operand);
    OpByteRoundTrip(op);
    OperandRoundTrip(n, operand);
    assert code[pc] == code[pc..pc + |bs|][0];
    assert code[pc + 1..pc + 1 + n] == code[pc..pc + |bs|][1..1 + n] == Operand(n, operand);
  }

  /** Decoding at an emitted instruction recovers its opcode, its operand and its
      captures with their locality, and lands exactly on the next instruction. */
  lemma DecodeAt(code: seq<Byte>, pc: nat, i: Instr, captureCount: nat -> nat)
    requires Encodable(i)
    requires i.MakeClosure? ==> captureCount(i.index) == |i.captures|
    requires BytesAt(code, pc, Encode(i))
    ensures Decode(code, pc, captureCount) == Some((i, pc + |Encode(i)|))
  {
    hide Decode;
    hide BytesAt;
    if i.Plain? {
      DecodePlainAt(code, pc, i.op, i.operand, captureCount);
    } else {
      DecodeClosureAt(code, pc, i.index, i.captures, captureCount);
    }
  }

  lemma DecodePlainAt(code: seq<Byte>, pc: nat, op: OpCode, operand: nat, captureCount: nat -> nat)
    requires Encodable(Plain(op, operand))
    requires BytesAt(code, pc, Encode(Plain(op, operand)))
    ensures Decode(code, pc, captureCount) == Some((Plain(op, operand), pc + 1 + OperandWidth(op)))
  {
    hide OpByte;
    hide OpOfByte;
    hide OperandWidth;
    hide ReadOperand;
    hide Operand;
    hide Pow256;
    FetchAt(code, pc, op, operand);
  }

  lemma DecodeClosureAt(code: seq<Byte>, pc: nat, index: nat, captures: seq<Capture>, captureCount: nat -> nat)
    requires Encodable(MakeClosure(index, captures))
    requires captureCount(index) == |captures|
    requires BytesAt(code, pc, Encode(MakeClosure(index, captures)))
    ensures Decode(code, pc, captureCount)
         == Some((MakeClosure(index, captures), pc + |Encode(MakeClosure(index, captures))|))
  {
    hide Decode;
    hide OpByte;
    hide OpOfByte;
    hide ReadOperand;
    hide Operand;
    hide EncodeCaptures;
    hide DecodeCaptures;
    hide BytesAt;
    var op := VarLength(CLOSURE, index).op;
    assert index < Pow256(OperandWidth(op)) by { PowersOf256(); }
    hide Pow256;
    var head := [OpByte(op)] + Operand(OperandWidth(op), index);
    BytesAtSplit(code, pc, head, EncodeCaptures(captures));
    hide Encode;
    FetchAt(code, pc, op, index);
    DecodeCapturesAt(code, pc + |head|, captures);
    DecodeFetched(code, pc, op, captures, captureCount);
  }

  lemma DecodeFetched(code: seq<Byte>, pc: nat, op: OpCode, captures: seq<Capture>, captureCount: nat -> nat)
    requires op in {CLOSURE, CLOSURE_LONG} && pc + 1 + OperandWidth(op) <= |code| && OpOfByte(code[pc]) == Some(op)
    requires
      var index := ReadOperand(code[pc + 1..pc + 1 + OperandWidth(op)]);
      var end := pc + 1 + OperandWidth(op) + |EncodeCaptures(captures)|;
      captureCount(index) == |captures| && DecodeCaptures(code, pc + 1 + OperandWidth(op), |captures|) == Some((captures, end))
    ensures
      var index := ReadOperand(code[pc + 1..pc + 1 + OperandWidth(op)]);
      var end := pc + 1 + OperandWidth(op) + |EncodeCaptures(captures)|;
      Decode(code, pc, captureCount) == Some((MakeClosure(index, captures), end))
  {
    hide OpOfByte;
    hide ReadOperand;
    hide OperandWidth;
    hide DecodeCaptures;
    hide EncodeCaptures;
  }

  /** Decodes instructions one after another until `end`. */
  function DecodeAll(code: seq<Byte>, pc: nat, end: nat, captureCount: nat -> nat): Option<seq<Instr>>
    decreases end - pc
  {
    if pc == end then Some([]) else
    match Decode(code, pc, captureCount)
    case None => None
    case Some((i, next)) =>
      if next <= pc || next > end then None else
      match DecodeAll(code, next, end, captureCount)
      case None => None
      case Some(rest) => Some([i] + rest)
  }

  /** Sequential decoding of an emitted stream recovers the stream. */
  lemma {:induction false} DecodeAllEncoded(code: seq<Byte>, pc: nat, ins: seq<Instr>, captureCount: nat -> nat)
    requires forall i <- ins :: Encodable(i)
    requires forall i <- ins :: i.MakeClosure? ==> captureCount(i.index) == |i.captures|
    requires CodeAt(code, pc, ins)
    ensures DecodeAll(code, pc, pc + Size(ins), captureCount) == Some(ins)
    decreases ins
  {
    hide Encode;
    hide Decode;
    if ins == [] {
    } else {
      BytesAtSplit(code, pc, Encode(ins[0]), EncodeAll(ins[1..]));
      DecodeAt(code, pc, ins[0], captureCount);
      DecodeAllEncoded(code, pc + |Encode(ins[0])|, ins[1..], captureCount);
      assert [ins[0]] + ins[1..] == ins;
    }
  }
}
