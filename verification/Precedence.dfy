/** Precedence climbing: the rule table, the parser of expressions and of the types in
    casts, and the printing with as few parentheses as possible that it inverts. */
module Precedence {
  import opened Bytecode
  import opened Values
  import opened Types

  datatype TokenType =
    | LEFT_PAREN | RIGHT_PAREN | LEFT_BRACE | RIGHT_BRACE | LEFT_BRACKET | RIGHT_BRACKET
    | COLON | COMMA | DOT | MINUS | PIPE | PLUS | SEMICOLON | SLASH | STAR
    | BANG | BANG_EQUAL | EQUAL_SIGN | EQUAL_EQUAL
    | LEFT_CHEVRON | LESS_EQUAL_SIGN | RIGHT_CHEVRON | GREATER_EQUAL_SIGN
    | IDENTIFIER | INTEGER_LITERAL | FLOAT_LITERAL | STRING_LITERAL | STRING_INTERP
    | AND | AS | ASYNC | AWAIT | BREAK | CONTINUE | ELSE | FALSE | FOR | FN | IF | IN | INOUT | IMPORT | IS
    | LET | LOOP | NIL | MATCH | OR | OUT | RETURN | SELF | STRUCT | SUPER | TRUE | VAR | WHILE
    | ANY_TYPE | BOOL_TYPE | CHAR_TYPE | FLOAT_TYPE | FN_TYPE | INT_TYPE | NIL_TYPE | STR_TYPE
    | ERROR | END_OF_FILE

  /** Identifiers carry their name and literals their value. */
  datatype Token = Token(kind: TokenType, name: string, value: Value)

  function Sym(kind: TokenType): Token { Token(kind, "", Nil) }

  /** The kind of the next token. */
  function Kind(ts: seq<Token>): TokenType {
    if ts == [] then END_OF_FILE else ts[0].kind
  }

  // ----- the rule table -----

  const P_NONE := 0
  const P_ASSIGNMENT := 1
  const P_OR := 2
  const P_AND := 3
  const P_EQUALITY := 4
  const P_COMPARISON := 5
  const P_TERM := 6
  const P_FACTOR := 7
  const P_AS := 8
  const P_UNARY := 9
  const P_CALL := 10
  const P_PRIMARY := 11

  datatype PrefixRule = GroupingRule | BlockRule | LiteralRule | VariableRule | UnaryRule

  datatype InfixRule = BinaryRule | CallRule | AndRule | OrRule | AsRule

  datatype Rule = Rule(prefix: Option<PrefixRule>, infix: Option<InfixRule>, precedence: nat)

  function GetRule(kind: TokenType): Rule {
    match kind
    case LEFT_PAREN => Rule(Some(GroupingRule), Some(CallRule), P_CALL)
    case LEFT_BRACE | FN | IF | LOOP => Rule(Some(BlockRule), None, P_NONE)
    case MINUS => Rule(Some(UnaryRule), Some(BinaryRule), P_TERM)
    case PLUS => Rule(None, Some(BinaryRule), P_TERM)
    case SLASH | STAR => Rule(None, Some(BinaryRule), P_FACTOR)
    case BANG => Rule(Some(UnaryRule), None, P_NONE)
    case BANG_EQUAL | EQUAL_EQUAL => Rule(None, Some(BinaryRule), P_EQUALITY)
    case LEFT_CHEVRON | LESS_EQUAL_SIGN | RIGHT_CHEVRON | GREATER_EQUAL_SIGN => Rule(None, Some(BinaryRule), P_COMPARISON)
    case IDENTIFIER => Rule(Some(VariableRule), None, P_NONE)
    case INTEGER_LITERAL | FLOAT_LITERAL | STRING_LITERAL | NIL | TRUE | FALSE => Rule(Some(LiteralRule), None, P_NONE)
    case AND => Rule(None, Some(AndRule), P_AND)
    case OR => Rule(None, Some(OrRule), P_OR)
    case AS => Rule(None, Some(AsRule), P_AS)
    case _ => Rule(None, None, P_NONE)
  }

  /** The loop of the parser, which goes on while a precedence above none is reached, never
      meets a token without an infix rule. */
  lemma InfixRuleExists(kind: TokenType, p: nat)
    requires p > P_NONE && p <= GetRule(kind).precedence
    ensures GetRule(kind).infix.Some?
  {
  }

  function BinaryKind(op: BinaryOp): (kind: TokenType)
    ensures GetRule(kind).infix == Some(BinaryRule) && BinaryOf(kind) == op
  {
    match op
    case Eq => EQUAL_EQUAL case Ne => BANG_EQUAL
    case Lt => LEFT_CHEVRON case Le => LESS_EQUAL_SIGN
    case Gt => RIGHT_CHEVRON case Ge => GREATER_EQUAL_SIGN
    case Add => PLUS case Sub => MINUS case Mul => STAR case Div => SLASH
  }

  function BinaryOf(kind: TokenType): BinaryOp {
    match kind
    case EQUAL_EQUAL => Eq case BANG_EQUAL => Ne
    case LEFT_CHEVRON => Lt case LESS_EQUAL_SIGN => Le
    case RIGHT_CHEVRON => Gt case GREATER_EQUAL_SIGN => Ge
    case PLUS => Add case MINUS => Sub case STAR => Mul
    case _ => Div
  }

  function UnaryKind(op: UnaryOp): TokenType {
    match op case Not => BANG case Neg => MINUS
  }

  function UnaryOf(kind: TokenType): UnaryOp { if kind == BANG then Not else Neg }

  // ----- trees -----

  datatype Infix = AndOp | OrOp | Op(op: BinaryOp)

  datatype Tree =
    | Leaf(value: Value)
    | Name(name: string)
    | Assign(name: string, rhs: Tree)
    | Prefix(uop: UnaryOp, arg: Tree)
    | Binary(op: Infix, left: Tree, right: Tree)
    | Call(callee: Tree, args: Args)
    | Cast(arg: Tree, to: TypeSet)

  datatype Args = NoArgs | Arg(first: Tree, rest: Args)

  function Count(args: Args): nat {
    if args.NoArgs? then 0 else 1 + Count(args.rest)
  }

  function InfixKind(op: Infix): TokenType {
    match op case AndOp => AND case OrOp => OR case Op(b) => BinaryKind(b)
  }

  function Strength(op: Infix): nat { GetRule(InfixKind(op)).precedence }

  /** The precedence at which the right operand is parsed: `and` and `or` nest to the
      right, the other operators to the left. */
  function RightLevel(op: Infix): nat {
    if op.Op? then Strength(op) + 1 else Strength(op)
  }

  function LeftLevel(op: Infix): nat {
    if op.Op? then Strength(op) else Strength(op) + 1
  }

  // ----- parsing types -----

  /** A parsed part and what follows it. `BlockAhead` is a block, `if`, `loop` or `fn`
      expression, whose parsing is not modelled. */
  datatype Parse<+T> = Got(value: T, rest: seq<Token>) | Rejected | BlockAhead

  function NamedType(kind: TokenType): Option<TypeInfo> {
    match kind
    case ANY_TYPE => Some(AnyType) case NIL_TYPE => Some(NilType) case BOOL_TYPE => Some(BoolType)
    case INT_TYPE => Some(IntType) case FLOAT_TYPE => Some(FloatType) case CHAR_TYPE => Some(CharType)
    case STR_TYPE => Some(StringType)
    case _ => None
  }

  function ParseType(ts: seq<Token>): (r: Parse<TypeInfo>)
    ensures r.Got? ==> |r.rest| < |ts|
    ensures !r.BlockAhead?
    decreases |ts|, 0
  {
    if Kind(ts) == FN_TYPE then ParseFunctionType(ts[1..])
    else if NamedType(Kind(ts)).Some? then Got(NamedType(Kind(ts)).value, ts[1..])
    else Rejected
  }

  /** Parameter and return types of a function: `<<A, B>, C>`. */
  function ParseFunctionType(ts: seq<Token>): (r: Parse<TypeInfo>)
    ensures r.Got? ==> |r.rest| < |ts|
    ensures !r.BlockAhead?
    decreases |ts|, 3
  {
    if Kind(ts) != LEFT_CHEVRON || Kind(ts[1..]) != LEFT_CHEVRON then Rejected else
    match ParseTypeSets(ts[2..])
    case Got(params, rest) => ParseReturnType(params, rest)
    case _ => Rejected
  }

  function ParseReturnType(params: seq<TypeSet>, ts: seq<Token>): (r: Parse<TypeInfo>)
    ensures r.Got? ==> |r.rest| < |ts|
    ensures !r.BlockAhead?
    decreases |ts|, 3
  {
    if Kind(ts) != COMMA then Rejected else
    match ParseTypeSet(ts[1..], [])
    case Got(ret, rest) => if Kind(rest) == RIGHT_CHEVRON then Got(FunctionType(params, ret), rest[1..]) else Rejected
    case _ => Rejected
  }

  /** Members of a union are joined by `or`; repeated ones are dropped. */
  function ParseTypeSet(ts: seq<Token>, soFar: seq<TypeInfo>): (r: Parse<TypeSet>)
    ensures r.Got? ==> |r.rest| < |ts|
    ensures !r.BlockAhead?
    decreases |ts|, 1
  {
    match ParseType(ts)
    case Got(t, rest) =>
      if Kind(rest) == OR then ParseTypeSet(rest[1..], Added(soFar, t)) else Got(TypeSet(Added(soFar, t)), rest)
    case _ => Rejected
  }

  /** The rest of a list of parameter types, up to its closing chevron. */
  function ParseTypeSets(ts: seq<Token>): (r: Parse<seq<TypeSet>>)
    ensures r.Got? ==> |r.rest| < |ts|
    ensures !r.BlockAhead?
    decreases |ts|, 2
  {
    if Kind(ts) == RIGHT_CHEVRON then Got([], ts[1..]) else
    match ParseTypeSet(ts, [])
    case Got(s, rest) =>
      if Kind(rest) == COMMA then
        (match ParseTypeSets(rest[1..])
         case Got(more, rest') => Got([s] + more, rest')
         case _ => Rejected)
      else if Kind(rest) == RIGHT_CHEVRON then Got([s], rest[1..])
      else Rejected
    case _ => Rejected
  }

  // ----- parsing expressions -----

  function LiteralOf(t: Token): Value {
    match t.kind
    case NIL => Nil case TRUE => Bool(true) case FALSE => Bool(false)
    case _ => t.value
  }

  /** An expression whose operators bind at least as strongly as `p`. */
  function ParseAt(p: nat, ts: seq<Token>): (r: Parse<Tree>)
    requires p > P_NONE
    ensures r.Got? ==> |r.rest| < |ts|
    decreases |ts|, 3
  {
    match ParsePrefix(p <= P_ASSIGNMENT, ts)
    case Got(lhs, rest) => NoTarget(p, Continue(p, lhs, rest))
    case other => other
  }

  /** Where an assignment could stand, an equal sign after the whole expression is an error. */
  function NoTarget(p: nat, r: Parse<Tree>): Parse<Tree> {
    if r.Got? && p <= P_ASSIGNMENT && Kind(r.rest) == EQUAL_SIGN then Rejected else r
  }

  function ParsePrefix(canAssign: bool, ts: seq<Token>): (r: Parse<Tree>)
    ensures r.Got? ==> |r.rest| < |ts|
    decreases |ts|, 2
  {
    match GetRule(Kind(ts)).prefix
    case None => Rejected
    case Some(BlockRule) => BlockAhead
    case Some(LiteralRule) => Got(Leaf(LiteralOf(ts[0])), ts[1..])
    case Some(GroupingRule) =>
      (match ParseAt(P_ASSIGNMENT, ts[1..])
       case Got(e, rest) => if Kind(rest) == RIGHT_PAREN then Got(e, rest[1..]) else Rejected
       case other => other)
    case Some(UnaryRule) =>
      (match ParseAt(P_UNARY, ts[1..])
       case Got(e, rest) => Got(Prefix(UnaryOf(ts[0].kind), e), rest)
       case other => other)
    case Some(VariableRule) =>
      if canAssign && Kind(ts[1..]) == EQUAL_SIGN then
        (match ParseAt(P_ASSIGNMENT, ts[2..])
         case Got(e, rest) => Got(Assign(ts[0].name, e), rest)
         case other => other)
      else Got(Name(ts[0].name), ts[1..])
  }

  /** Goes on with operators while they bind at least as strongly as `p`. */
  function Continue(p: nat, lhs: Tree, ts: seq<Token>): (r: Parse<Tree>)
    requires p > P_NONE
    ensures r.Got? ==> |r.rest| <= |ts|
    decreases |ts|, 1
  {
    if p > GetRule(Kind(ts)).precedence then Got(lhs, ts) else
    match ParseInfix(lhs, ts)
    case Got(e, rest) => Continue(p, e, rest)
    case other => other
  }

  function ParseInfix(lhs: Tree, ts: seq<Token>): (r: Parse<Tree>)
    requires GetRule(Kind(ts)).infix.Some?
    ensures r.Got? ==> |r.rest| < |ts|
    decreases |ts|, 0
  {
    match GetRule(Kind(ts)).infix.value
    case BinaryRule => ParseRight(lhs, Op(BinaryOf(Kind(ts))), ts[1..])
    case AndRule => ParseRight(lhs, AndOp, ts[1..])
    case OrRule => ParseRight(lhs, OrOp, ts[1..])
    case CallRule =>
      (match ParseArgs(ts[1..], 0)
       case Got(args, rest) => Got(Call(lhs, args), rest)
       case Rejected => Rejected
       case BlockAhead => BlockAhead)
    case AsRule =>
      (match ParseTypeSet(ts[1..], [])
       case Got(to, rest) => Got(Cast(lhs, to), rest)
       case _ => Rejected)
  }

  function ParseRight(lhs: Tree, op: Infix, ts: seq<Token>): (r: Parse<Tree>)
    ensures r.Got? ==> |r.rest| < |ts|
    decreases |ts|, 4
  {
    match ParseAt(RightLevel(op), ts)
    case Got(e, rest) => Got(Binary(op, lhs, e), rest)
    case other => other
  }

  /** The arguments up to the closing parenthesis, when `count` came before them. */
  function ParseArgs(ts: seq<Token>, count: nat): (r: Parse<Args>)
    ensures r.Got? ==> |r.rest| < |ts|
    decreases |ts|, 4
  {
    if Kind(ts) == RIGHT_PAREN then Got(NoArgs, ts[1..]) else
    match ParseAt(P_ASSIGNMENT, ts)
    case Got(e, rest) =>
      if count == MAX_ARGUMENTS then Rejected
      else if Kind(rest) == COMMA then
        (match ParseArgs(rest[1..], count + 1)
         case Got(more, rest') => Got(Arg(e, more), rest')
         case other => other)
      else if Kind(rest) == RIGHT_PAREN then Got(Arg(e, NoArgs), rest[1..])
      else Rejected
    case Rejected => Rejected
    case BlockAhead => BlockAhead
  }
}
