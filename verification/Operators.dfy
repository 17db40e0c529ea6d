/** What the operators compute: the answers of the machine's opcodes, in terms of numbers
    and truth. */
module Operators {
  import opened Bytecode
  import opened Values
  import opened M = Machine

  /** The two operands on top of the stack, the left one below the right one. */
  predicate Operands(s: VM, lhs: Value, rhs: Value) {
    |s.stack| >= 2 && s.stack[|s.stack| - 2] == lhs && s.stack[|s.stack| - 1] == rhs
  }

  /** The machine goes on with `v` in place of the top `n` values. */
  predicate Leaves(r: Status, s: VM, n: nat, v: Value) {
    n <= |s.stack| && r == Running(s.(stack := s.stack[..|s.stack| - n] + [v]))
  }

  lemma IntegerOperators(img: Image, s: VM, a: int, b: int, operand: nat)
    requires Operands(s, Int(a), Int(b))
    ensures Leaves(Exec(img, s, Plain(ADD, operand)), s, 2, Int(a + b))
    ensures Leaves(Exec(img, s, Plain(SUBSTRACT, operand)), s, 2, Int(a - b))
    ensures Leaves(Exec(img, s, Plain(MULTIPLY, operand)), s, 2, Int(a * b))
    ensures Leaves(Exec(img, s, Plain(EQUAL, operand)), s, 2, Bool(a == b))
    ensures Leaves(Exec(img, s, Plain(NOT_EQUAL, operand)), s, 2, Bool(a != b))
    ensures Leaves(Exec(img, s, Plain(GREATER, operand)), s, 2, Bool(a > b))
    ensures Leaves(Exec(img, s, Plain(GREATER_EQUAL, operand)), s, 2, Bool(a >= b))
    ensures Leaves(Exec(img, s, Plain(LESS, operand)), s, 2, Bool(a < b))
    ensures Leaves(Exec(img, s, Plain(LESS_EQUAL, operand)), s, 2, Bool(a <= b))
  {
    hide Exec;
    hide Leaves;
    IntegerAnswer(img, s, a, b, ADD, operand);
    IntegerAnswer(img, s, a, b, SUBSTRACT, operand);
    IntegerAnswer(img, s, a, b, MULTIPLY, operand);
    IntegerAnswer(img, s, a, b, EQUAL, operand);
    IntegerAnswer(img, s, a, b, NOT_EQUAL, operand);
    IntegerAnswer(img, s, a, b, GREATER, operand);
    IntegerAnswer(img, s, a, b, GREATER_EQUAL, operand);
    IntegerAnswer(img, s, a, b, LESS, operand);
    IntegerAnswer(img, s, a, b, LESS_EQUAL, operand);
  }

  lemma IntegerAnswer(img: Image, s: VM, a: int, b: int, op: OpCode, operand: nat)
    requires Operands(s, Int(a), Int(b)) && IsBinary(op) && op != DIVIDE
    ensures Leaves(Exec(img, s, Plain(op, operand)), s, 2, IntOp(OperatorOf(op), a, b))
  {
    hide Exec;
    hide FloatOp;
    BinaryOpcode(img, s, op, operand);
  }

  function Abs(n: int): nat { if n < 0 then -n else n }

  /** The quotient rounded toward zero: what remains is smaller than the divisor and has the
      sign of the dividend. */
  predicate Quotient(a: int, b: int, q: int) {
    var r := a - q * b;
    Abs(r) < Abs(b) && (r == 0 || (r > 0 <==> a > 0))
  }

  lemma TruncDivIsQuotient(a: int, b: int)
    requires b != 0
    ensures Quotient(a, b, TruncDiv(a, b))
  {
    hide Quotient;
    var n := Abs(a);
    var q, r := n / b, n % b;
    assert n == q * b + r && 0 <= r < Abs(b);
    assert n == 0 ==> r == 0;
    IsQuotient(a, b, q, r);
  }

  lemma IsQuotient(a: int, b: int, q: int, r: nat)
    requires Abs(a) == q * b + r && r < Abs(b) && (a == 0 ==> r == 0)
    ensures Quotient(a, b, if a >= 0 then q else -q)
  {
    assert (-q) * b == -(q * b);
  }

  /** Division of integers: rounded toward zero, and an error for a divisor of zero only. */
  lemma IntegerDivision(img: Image, s: VM, a: int, b: int, operand: nat) returns (q: int, r: int)
    requires Operands(s, Int(a), Int(b))
    ensures b == 0 ==> Exec(img, s, Plain(DIVIDE, operand)) == Fault(DivisionByZero)
    ensures b != 0 ==> Leaves(Exec(img, s, Plain(DIVIDE, operand)), s, 2, Int(q))
    ensures b != 0 ==> q * b + r == a && Abs(r) < Abs(b) && (r == 0 || (r > 0 <==> a > 0))
  {
    hide Exec;
    hide FloatOp;
    hide TruncDiv;
    BinaryOpcode(img, s, DIVIDE, operand);
    if b == 0 { return 0, 0; }
    TruncDivIsQuotient(a, b);
    q := TruncDiv(a, b);
    r := a - q * b;
  }

  /** Numbers that are not both integers: an integer is converted, and the operation on
      floats is that of the opcode, its operands in source order. */
  lemma FloatOperators(img: Image, s: VM, lhs: Value, rhs: Value, x: Float, y: Float, operand: nat)
    requires Operands(s, lhs, rhs)
    requires (lhs.Flt? && rhs.Flt?) || (lhs.Flt? && rhs.Int?) || (lhs.Int? && rhs.Flt?)
    requires x == if lhs.Int? then img.fl.ofInt(lhs.i) else lhs.f
    requires y == if rhs.Int? then img.fl.ofInt(rhs.i) else rhs.f
    ensures Leaves(Exec(img, s, Plain(ADD, operand)), s, 2, Flt(img.fl.add(x, y)))
    ensures Leaves(Exec(img, s, Plain(SUBSTRACT, operand)), s, 2, Flt(img.fl.sub(x, y)))
    ensures Leaves(Exec(img, s, Plain(MULTIPLY, operand)), s, 2, Flt(img.fl.mul(x, y)))
    ensures Leaves(Exec(img, s, Plain(DIVIDE, operand)), s, 2, Flt(img.fl.div(x, y)))
    ensures Leaves(Exec(img, s, Plain(GREATER, operand)), s, 2, Bool(img.fl.lt(y, x)))
    ensures Leaves(Exec(img, s, Plain(GREATER_EQUAL, operand)), s, 2, Bool(img.fl.le(y, x)))
    ensures Leaves(Exec(img, s, Plain(LESS, operand)), s, 2, Bool(img.fl.lt(x, y)))
    ensures Leaves(Exec(img, s, Plain(LESS_EQUAL, operand)), s, 2, Bool(img.fl.le(x, y)))
  {
    hide Exec;
    hide Leaves;
    hide Operands;
    FloatArithmetic(img, s, lhs, rhs, x, y, operand);
    FloatOrder(img, s, lhs, rhs, x, y, operand);
  }

  lemma FloatArithmetic(img: Image, s: VM, lhs: Value, rhs: Value, x: Float, y: Float, operand: nat)
    requires Operands(s, lhs, rhs)
    requires (lhs.Flt? && rhs.Flt?) || (lhs.Flt? && rhs.Int?) || (lhs.Int? && rhs.Flt?)
    requires x == if lhs.Int? then img.fl.ofInt(lhs.i) else lhs.f
    requires y == if rhs.Int? then img.fl.ofInt(rhs.i) else rhs.f
    ensures Leaves(Exec(img, s, Plain(ADD, operand)), s, 2, Flt(img.fl.add(x, y)))
    ensures Leaves(Exec(img, s, Plain(SUBSTRACT, operand)), s, 2, Flt(img.fl.sub(x, y)))
    ensures Leaves(Exec(img, s, Plain(MULTIPLY, operand)), s, 2, Flt(img.fl.mul(x, y)))
    ensures Leaves(Exec(img, s, Plain(DIVIDE, operand)), s, 2, Flt(img.fl.div(x, y)))
  {
    hide Exec;
    hide Leaves;
    hide Operands;
    FloatAnswer(img, s, lhs, rhs, x, y, ADD, operand);
    FloatAnswer(img, s, lhs, rhs, x, y, SUBSTRACT, operand);
    FloatAnswer(img, s, lhs, rhs, x, y, MULTIPLY, operand);
    FloatAnswer(img, s, lhs, rhs, x, y, DIVIDE, operand);
  }

  lemma FloatOrder(img: Image, s: VM, lhs: Value, rhs: Value, x: Float, y: Float, operand: nat)
    requires Operands(s, lhs, rhs)
    requires (lhs.Flt? && rhs.Flt?) || (lhs.Flt? && rhs.Int?) || (lhs.Int? && rhs.Flt?)
    requires x == if lhs.Int? then img.fl.ofInt(lhs.i) else lhs.f
    requires y == if rhs.Int? then img.fl.ofInt(rhs.i) else rhs.f
    ensures Leaves(Exec(img, s, Plain(GREATER, operand)), s, 2, Bool(img.fl.lt(y, x)))
    ensures Leaves(Exec(img, s, Plain(GREATER_EQUAL, operand)), s, 2, Bool(img.fl.le(y, x)))
    ensures Leaves(Exec(img, s, Plain(LESS, operand)), s, 2, Bool(img.fl.lt(x, y)))
    ensures Leaves(Exec(img, s, Plain(LESS_EQUAL, operand)), s, 2, Bool(img.fl.le(x, y)))
  {
    hide Exec;
    hide Leaves;
    hide Operands;
    FloatAnswer(img, s, lhs, rhs, x, y, GREATER, operand);
    FloatAnswer(img, s, lhs, rhs, x, y, GREATER_EQUAL, operand);
    FloatAnswer(img, s, lhs, rhs, x, y, LESS, operand);
    FloatAnswer(img, s, lhs, rhs, x, y, LESS_EQUAL, operand);
  }

  lemma FloatAnswer(img: Image, s: VM, lhs: Value, rhs: Value, x: Float, y: Float, op: OpCode, operand: nat)
    requires Operands(s, lhs, rhs) && IsBinary(op) && op != EQUAL && op != NOT_EQUAL
    requires (lhs.Flt? && rhs.Flt?) || (lhs.Flt? && rhs.Int?) || (lhs.Int? && rhs.Flt?)
    requires x == if lhs.Int? then img.fl.ofInt(lhs.i) else lhs.f
    requires y == if rhs.Int? then img.fl.ofInt(rhs.i) else rhs.f
    ensures Leaves(Exec(img, s, Plain(op, operand)), s, 2, FloatOp(img.fl, OperatorOf(op), x, y))
  {
    hide Exec;
    hide FloatOp;
    hide IntOp;
    BinaryOpcode(img, s, op, operand);
  }

  predicate IsBinary(op: OpCode) {
    match op
    case ADD | SUBSTRACT | MULTIPLY | DIVIDE | EQUAL | NOT_EQUAL | GREATER | GREATER_EQUAL | LESS | LESS_EQUAL => true
    case _ => false
  }

  function OperatorOf(op: OpCode): BinaryOp {
    match op
    case ADD => Add case SUBSTRACT => Sub case MULTIPLY => Mul case DIVIDE => Div
    case EQUAL => Eq case NOT_EQUAL => Ne
    case GREATER => Gt case GREATER_EQUAL => Ge case LESS => Lt case _ => Le
  }

  lemma BinaryOpcode(img: Image, s: VM, op: OpCode, operand: nat)
    requires IsBinary(op)
    ensures Exec(img, s, Plain(op, operand)) == BinaryStep(img, s, OperatorOf(op))
  {
    hide BinaryStep;
    hide UnaryStep;
    hide Push;
    hide GetLocal;
    hide SetLocal;
    hide GetGlobal;
    hide SetGlobal;
    hide DefineGlobal;
    hide Jump;
    hide JumpIfFalse;
    hide CallStep;
    hide ReturnStep;
    hide EndScopeStep;
  }

  /** Operands that are not both numbers. */
  lemma WrongOperands(img: Image, s: VM, lhs: Value, rhs: Value, op: OpCode, operand: nat)
    requires Operands(s, lhs, rhs) && op in {ADD, SUBSTRACT, MULTIPLY, DIVIDE, GREATER, GREATER_EQUAL, LESS, LESS_EQUAL}
    requires !((lhs.Int? || lhs.Flt?) && (rhs.Int? || rhs.Flt?))
    ensures Exec(img, s, Plain(op, operand)) == Fault(OperandsMustBeNumbers)
  {
  }

  /** Values of different kinds are unequal, an integer and a float too; floats are compared
      as floats, and everything else by content or identity. */
  lemma EqualityOperators(img: Image, s: VM, lhs: Value, rhs: Value, operand: nat)
    requires Operands(s, lhs, rhs)
    ensures
      var same := if lhs.Flt? && rhs.Flt? then img.fl.eq(lhs.f, rhs.f) else lhs == rhs;
      && Leaves(Exec(img, s, Plain(EQUAL, operand)), s, 2, Bool(same))
      && Leaves(Exec(img, s, Plain(NOT_EQUAL, operand)), s, 2, Bool(!same))
  {
  }

  lemma PrefixOperators(img: Image, s: VM, v: Value, operand: nat)
    requires s.stack != [] && s.stack[|s.stack| - 1] == v
    ensures Leaves(Exec(img, s, Plain(NOT, operand)), s, 1, Bool(v == Nil || v == Bool(false)))
    ensures v.Int? ==> Leaves(Exec(img, s, Plain(NEGATE, operand)), s, 1, Int(0 - v.i))
    ensures v.Flt? ==> Leaves(Exec(img, s, Plain(NEGATE, operand)), s, 1, Flt(img.fl.neg(v.f)))
    ensures !v.Int? && !v.Flt? ==> Exec(img, s, Plain(NEGATE, operand)) == Fault(OperandMustBeNumber)
  {
  }

  /** The conditional jump is taken on nil and false, and leaves the condition. */
  lemma ConditionalJump(img: Image, s: VM, v: Value, offset: nat)
    requires s.stack != [] && s.stack[|s.stack| - 1] == v
    ensures Exec(img, s, Plain(JUMP_IF_FALSE, offset)) ==
            Running(if v == Nil || v == Bool(false) then s.(ip := s.ip + offset) else s)
  {
  }

  /** A call of a closure with as many arguments as parameters fails exactly when 1024 frames
      are open, the current one among them. */
  lemma FrameLimit(img: Image, s: VM, argc: nat)
    requires argc < |s.stack| && s.stack[|s.stack| - 1 - argc].Closure?
    requires s.stack[|s.stack| - 1 - argc].def < |img.protos| && img.protos[s.stack[|s.stack| - 1 - argc].def].arity == argc
    ensures Exec(img, s, Plain(CALL, argc)) == Fault(StackOverflow) <==> |s.frames| + 1 >= 1024
    ensures |s.frames| + 1 < 1024 ==> Exec(img, s, Plain(CALL, argc)).Running?
  {
  }
}
