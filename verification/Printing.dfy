/** Printing trees with as few parentheses as the rule table allows, and exactly when the
    parser reads them back. */
module Printing {
  import opened Values
  import opened Types
  import opened Precedence
  import Syntax
  import Codegen

  lemma Regroup<T>(a: seq<T>, b: seq<T>, c: seq<T>, d: seq<T>)
    ensures a + b + c + d == a + (b + (c + d))
  {
  }

  // ----- types -----

  function TypeKind(t: TypeInfo): TokenType {
    match t
    case NoneType => ERROR
    case AnyType => ANY_TYPE case NilType => NIL_TYPE case BoolType => BOOL_TYPE
    case IntType => INT_TYPE case FloatType => FLOAT_TYPE case CharType => CHAR_TYPE
    case StringType => STR_TYPE
    case FunctionType(_, _) => FN_TYPE
  }

  function TypeTokens(t: TypeInfo): (ts: seq<Token>)
    ensures ts != [] && Kind(ts) == TypeKind(t)
    decreases t, 0
  {
    match t
    case FunctionType(params, ret) =>
      [Sym(FN_TYPE), Sym(LEFT_CHEVRON), Sym(LEFT_CHEVRON)] + ListTokens(params)
      + [Sym(RIGHT_CHEVRON), Sym(COMMA)] + UnionTokens(ret.types) + [Sym(RIGHT_CHEVRON)]
    case _ => [Sym(TypeKind(t))]
  }

  function UnionTokens(types: seq<TypeInfo>): (ts: seq<Token>)
    ensures types != [] ==> ts != [] && Kind(ts) == TypeKind(types[0])
    decreases types, 0
  {
    if types == [] then []
    else if |types| == 1 then TypeTokens(types[0])
    else TypeTokens(types[0]) + [Sym(OR)] + UnionTokens(types[1..])
  }

  function ListTokens(sets: seq<TypeSet>): seq<Token>
    decreases sets, 0
  {
    if sets == [] then []
    else if |sets| == 1 then UnionTokens(sets[0].types)
    else UnionTokens(sets[0].types) + [Sym(COMMA)] + ListTokens(sets[1..])
  }

  /** Types that can be written down: no empty union, none with duplicates. */
  ghost predicate Writable(t: TypeInfo)
    decreases t
  {
    match t
    case NoneType => false
    case FunctionType(params, ret) => (forall p <- params :: WritableSet(p)) && WritableSet(ret)
    case _ => true
  }

  ghost predicate WritableSet(s: TypeSet)
    decreases s
  {
    s.types != [] && NoDuplicates(s) && forall t <- s.types :: Writable(t)
  }

  /** Written types have no duplicates, at any depth. */
  lemma {:induction false} WritableIsDistinct(t: TypeInfo)
    requires Writable(t)
    ensures Distinct(t)
    decreases t
  {
    if t.FunctionType? {
      forall p <- t.params ensures DistinctSet(p) { WritableSetIsDistinct(p); }
      WritableSetIsDistinct(t.ret);
    }
  }

  lemma {:induction false} WritableSetIsDistinct(s: TypeSet)
    requires WritableSet(s)
    ensures DistinctSet(s)
    decreases s
  {
    forall t <- s.types ensures Distinct(t) { WritableIsDistinct(t); }
  }

  predicate StartsType(kind: TokenType) { kind == FN_TYPE || NamedType(kind).Some? }

  /** After an `or` that belongs to an expression comes no type. */
  ghost predicate NoTypeAfterOr(rest: seq<Token>) {
    Kind(rest) == OR ==> !StartsType(Kind(rest[1..]))
  }

  // Steps of the parser of types, and the texts it is given.

  lemma FunctionTypeStep(ts: seq<Token>)
    requires Kind(ts) == FN_TYPE && Kind(ts[1..]) == LEFT_CHEVRON == Kind(ts[2..]) && ParseTypeSets(ts[3..]).Got?
    requires
      var list := ParseTypeSets(ts[3..]);
      Kind(list.rest) == COMMA && ParseTypeSet(list.rest[1..], []).Got? && Kind(ParseTypeSet(list.rest[1..], []).rest) == RIGHT_CHEVRON
    ensures
      var list := ParseTypeSets(ts[3..]);
      var ret := ParseTypeSet(list.rest[1..], []);
      ParseType(ts) == Got(FunctionType(list.value, ret.value), ret.rest[1..])
  {
    hide ParseTypeSet;
    hide ParseTypeSets;
    assert ts[1..][1..] == ts[2..] && ts[1..][2..] == ts[3..];
    assert ParseType(ts) == ParseFunctionType(ts[1..]);
    assert ParseFunctionType(ts[1..]) == ParseReturnType(ParseTypeSets(ts[3..]).value, ParseTypeSets(ts[3..]).rest);
  }

  lemma FunctionTypeText(t: TypeInfo, rest: seq<Token>)
    requires t.FunctionType?
    ensures
      var close := [Sym(RIGHT_CHEVRON)] + rest;
      var ret := [Sym(COMMA)] + (UnionTokens(t.ret.types) + close);
      var list := ListTokens(t.params) + ([Sym(RIGHT_CHEVRON)] + ret);
      var ts := TypeTokens(t) + rest;
      && Kind(ts) == FN_TYPE && Kind(ts[1..]) == LEFT_CHEVRON == Kind(ts[2..]) && ts[3..] == list
      && Kind(ret) == COMMA && ret[1..] == UnionTokens(t.ret.types) + close && Kind(close) == RIGHT_CHEVRON && close[1..] == rest
  {
    hide ListTokens;
    hide UnionTokens;
    var close := [Sym(RIGHT_CHEVRON)] + rest;
    var ret := [Sym(COMMA)] + (UnionTokens(t.ret.types) + close);
    var ps, r := ListTokens(t.params), UnionTokens(t.ret.types);
    var list := ps + ([Sym(RIGHT_CHEVRON)] + ret);
    var open := [Sym(FN_TYPE), Sym(LEFT_CHEVRON), Sym(LEFT_CHEVRON)];
    assert TypeTokens(t) == open + ps + [Sym(RIGHT_CHEVRON), Sym(COMMA)] + r + [Sym(RIGHT_CHEVRON)];
    assert TypeTokens(t) + rest == open + list;
  }

  lemma {:induction false} TypeReadBack(t: TypeInfo, rest: seq<Token>)
    requires Writable(t)
    ensures ParseType(TypeTokens(t) + rest) == Got(t, rest)
    decreases t, 1
  {
    if t.FunctionType? {
      FunctionReadBack(t, rest);
    } else {
      assert (TypeTokens(t) + rest)[1..] == rest;
    }
  }

  lemma {:induction false} FunctionReadBack(t: TypeInfo, rest: seq<Token>)
    requires Writable(t) && t.FunctionType?
    ensures ParseType(TypeTokens(t) + rest) == Got(t, rest)
    decreases t, 0
  {
    var close := [Sym(RIGHT_CHEVRON)] + rest;
    var ret := [Sym(COMMA)] + (UnionTokens(t.ret.types) + close);
    FunctionTypeText(t, rest);
    hide ListTokens;
    hide UnionTokens;
    hide TypeTokens;
    hide ParseType;
    hide ParseTypeSet;
    hide ParseTypeSets;
    hide WritableSet;
    ListReadBack(t.params, ret);
    MemberReadBack(t.ret, close);
    FunctionTypeStep(TypeTokens(t) + rest);
  }

  lemma UnionStep(ts: seq<Token>, soFar: seq<TypeInfo>)
    requires ParseType(ts).Got?
    ensures
      var r := ParseType(ts);
      ParseTypeSet(ts, soFar)
      == if Kind(r.rest) == OR then ParseTypeSet(r.rest[1..], Added(soFar, r.value)) else Got(TypeSet(Added(soFar, r.value)), r.rest)
  {
    hide ParseType;
    hide Added;
  }

  /** The text after the first member of a union. */
  function AfterMember(types: seq<TypeInfo>, rest: seq<Token>): seq<Token>
    requires types != []
  {
    if |types| == 1 then rest else [Sym(OR)] + (UnionTokens(types[1..]) + rest)
  }

  lemma UnionText(types: seq<TypeInfo>, rest: seq<Token>)
    requires types != []
    ensures UnionTokens(types) + rest == TypeTokens(types[0]) + AfterMember(types, rest)
    ensures |types| == 1 ==> AfterMember(types, rest) == rest
    ensures |types| > 1 ==> Kind(AfterMember(types, rest)) == OR && AfterMember(types, rest)[1..] == UnionTokens(types[1..]) + rest
  {
    hide TypeTokens;
    if |types| > 1 {
      assert UnionTokens(types) == TypeTokens(types[0]) + [Sym(OR)] + UnionTokens(types[1..]);
      hide UnionTokens;
      Regroup(TypeTokens(types[0]), [Sym(OR)], UnionTokens(types[1..]), rest);
    }
  }

  /** A union is read up to its end; an `or` after it is taken for one more member. */
  lemma {:induction false} UnionReadBack(soFar: seq<TypeInfo>, types: seq<TypeInfo>, rest: seq<Token>)
    requires types != [] && (forall t <- types :: Writable(t)) && NoTypeAfterOr(rest)
    requires NoDuplicates(TypeSet(soFar + types))
    ensures ParseTypeSet(UnionTokens(types) + rest, soFar) == if Kind(rest) == OR then Rejected else Got(TypeSet(soFar + types), rest)
    decreases types, 2
  {
    hide ParseType;
    hide ParseTypeSet;
    hide TypeTokens;
    hide Writable;
    hide NoDuplicates;
    NewMember(soFar, types);
    hide Added;
    UnionText(types, rest);
    hide UnionTokens;
    hide AfterMember;
    TypeReadBack(types[0], AfterMember(types, rest));
    UnionStep(UnionTokens(types) + rest, soFar);
    SplitMember(soFar, types);
    if |types| == 1 {
      if Kind(rest) == OR { NoTypeHere(rest[1..], soFar + [types[0]]); }
    } else {
      UnionReadBack(soFar + [types[0]], types[1..], rest);
    }
  }

  lemma SplitMember(soFar: seq<TypeInfo>, types: seq<TypeInfo>)
    requires types != []
    ensures soFar + [types[0]] + types[1..] == soFar + types
    ensures |types| == 1 ==> soFar + [types[0]] == soFar + types
  {
  }

  lemma NoTypeHere(ts: seq<Token>, soFar: seq<TypeInfo>)
    requires !StartsType(Kind(ts))
    ensures ParseTypeSet(ts, soFar) == Rejected
  {
  }

  lemma NewMember(soFar: seq<TypeInfo>, types: seq<TypeInfo>)
    requires types != [] && NoDuplicates(TypeSet(soFar + types))
    ensures Added(soFar, types[0]) == soFar + [types[0]]
  {
    var all := soFar + types;
    forall x <- soFar ensures !Equal(x, types[0]) {
      var i :| 0 <= i < |soFar| && soFar[i] == x;
      assert all[i] == x && all[|soFar|] == types[0];
    }
  }

  /** One member of a list of unions. */
  lemma {:induction false} MemberReadBack(s: TypeSet, rest: seq<Token>)
    requires WritableSet(s) && Kind(rest) != OR
    ensures ParseTypeSet(UnionTokens(s.types) + rest, []) == Got(s, rest)
    ensures Kind(UnionTokens(s.types) + rest) != RIGHT_CHEVRON
    decreases s, 4
  {
    hide ParseTypeSet;
    hide TypeTokens;
    hide Writable;
    hide NoDuplicates;
    assert [] + s.types == s.types;
    UnionReadBack([], s.types, rest);
    assert Kind(UnionTokens(s.types) + rest) == TypeKind(s.types[0]);
  }

  lemma ListStep(ts: seq<Token>)
    requires Kind(ts) != RIGHT_CHEVRON && ParseTypeSet(ts, []).Got?
    ensures
      var r := ParseTypeSet(ts, []);
      && (Kind(r.rest) == RIGHT_CHEVRON ==> ParseTypeSets(ts) == Got([r.value], r.rest[1..]))
      && (Kind(r.rest) == COMMA && ParseTypeSets(r.rest[1..]).Got? ==>
            ParseTypeSets(ts) == Got([r.value] + ParseTypeSets(r.rest[1..]).value, ParseTypeSets(r.rest[1..]).rest))
  {
    hide ParseTypeSet;
  }

  function AfterSet(sets: seq<TypeSet>, end: seq<Token>): seq<Token>
    requires sets != []
  {
    if |sets| == 1 then end else [Sym(COMMA)] + (ListTokens(sets[1..]) + end)
  }

  lemma ListText(sets: seq<TypeSet>, end: seq<Token>)
    requires sets != []
    ensures ListTokens(sets) + end == UnionTokens(sets[0].types) + AfterSet(sets, end)
    ensures |sets| > 1 ==> Kind(AfterSet(sets, end)) == COMMA && AfterSet(sets, end)[1..] == ListTokens(sets[1..]) + end
  {
    hide UnionTokens;
    if |sets| > 1 {
      assert ListTokens(sets) == UnionTokens(sets[0].types) + [Sym(COMMA)] + ListTokens(sets[1..]);
      hide ListTokens;
      Regroup(UnionTokens(sets[0].types), [Sym(COMMA)], ListTokens(sets[1..]), end);
    }
  }

  lemma {:induction false} ListReadBack(sets: seq<TypeSet>, rest: seq<Token>)
    requires forall s <- sets :: WritableSet(s)
    ensures ParseTypeSets(ListTokens(sets) + ([Sym(RIGHT_CHEVRON)] + rest)) == Got(sets, rest)
    decreases sets, 3
  {
    hide ParseTypeSet;
    hide UnionTokens;
    hide WritableSet;
    var end := [Sym(RIGHT_CHEVRON)] + rest;
    assert end[1..] == rest;
    if sets == [] {
      assert ListTokens(sets) + end == end;
    } else {
      hide ParseTypeSets;
      ListText(sets, end);
      hide ListTokens;
      assert sets[0] in sets;
      MemberReadBack(sets[0], AfterSet(sets, end));
      ListStep(ListTokens(sets) + end);
      if |sets| == 1 {
        assert [sets[0]] == sets;
      } else {
        ListReadBack(sets[1..], rest);
        assert [sets[0]] + sets[1..] == sets;
      }
    }
  }

  // ----- expressions -----

  function LiteralToken(v: Value): Token {
    match v
    case Nil => Sym(NIL)
    case Bool(b) => Sym(if b then TRUE else FALSE)
    case Int(_) => Token(INTEGER_LITERAL, "", v)
    case Flt(_) => Token(FLOAT_LITERAL, "", v)
    case _ => Token(STRING_LITERAL, "", v)
  }

  function Ident(name: string): Token { Token(IDENTIFIER, name, Nil) }

  /** How strongly the outermost operator binds. */
  function LevelOf(e: Tree): nat {
    match e
    case Leaf(_) => P_PRIMARY
    case Name(_) => P_PRIMARY
    case Assign(_, _) => P_ASSIGNMENT
    case Prefix(_, _) => P_UNARY
    case Binary(op, _, _) => Strength(op)
    case Call(_, _) => P_CALL
    case Cast(_, _) => P_AS
  }

  /** A level that only parentheses reach. */
  const P_ALWAYS := 12

  /** The text printed at that level ends with a type. */
  predicate EndsInType(e: Tree, level: nat)
    decreases e
  {
    LevelOf(e) >= level &&
    match e
    case Cast(_, _) => true
    case Binary(op, _, r) => EndsInType(r, RightLevel(op))
    case Prefix(_, a) => EndsInType(a, P_UNARY)
    case Assign(_, rhs) => EndsInType(rhs, P_ASSIGNMENT)
    case _ => false
  }

  /** The level at which a left operand is printed. With `guarded`, a left operand of `or`
      whose text ends with a type gets parentheses all the same. */
  function PrintLevel(op: Infix, l: Tree, guarded: bool): nat {
    if guarded && op == OrOp && EndsInType(l, LeftLevel(op)) then P_ALWAYS else LeftLevel(op)
  }

  function Print(e: Tree, level: nat, guarded: bool): (ts: seq<Token>)
    ensures ts != []
    decreases e, 1
  {
    if LevelOf(e) < level then [Sym(LEFT_PAREN)] + Bare(e, guarded) + [Sym(RIGHT_PAREN)] else Bare(e, guarded)
  }

  function Bare(e: Tree, guarded: bool): (ts: seq<Token>)
    ensures ts != []
    decreases e, 0
  {
    match e
    case Leaf(v) => [LiteralToken(v)]
    case Name(name) => [Ident(name)]
    case Assign(name, rhs) => [Ident(name), Sym(EQUAL_SIGN)] + Print(rhs, P_ASSIGNMENT, guarded)
    case Prefix(op, a) => [Sym(UnaryKind(op))] + Print(a, P_UNARY, guarded)
    case Binary(op, l, r) =>
      Print(l, PrintLevel(op, l, guarded), guarded) + [Sym(InfixKind(op))] + Print(r, RightLevel(op), guarded)
    case Call(f, args) => Print(f, P_CALL, guarded) + [Sym(LEFT_PAREN)] + PrintArgs(args, guarded) + [Sym(RIGHT_PAREN)]
    case Cast(a, to) => Print(a, P_AS, guarded) + [Sym(AS)] + UnionTokens(to.types)
  }

  function PrintArgs(args: Args, guarded: bool): seq<Token>
    decreases args
  {
    match args
    case NoArgs => []
    case Arg(first, rest) =>
      if rest.NoArgs? then Print(first, P_ASSIGNMENT, guarded)
      else Print(first, P_ASSIGNMENT, guarded) + [Sym(COMMA)] + PrintArgs(rest, guarded)
  }

  /** Trees of expressions: literals are literals, and casts are to types one can write. */
  ghost predicate WellFormed(e: Tree)
    decreases e
  {
    match e
    case Leaf(v) => !v.Function? && !v.Closure?
    case Name(_) => true
    case Assign(_, rhs) => WellFormed(rhs)
    case Prefix(_, a) => WellFormed(a)
    case Binary(_, l, r) => WellFormed(l) && WellFormed(r)
    case Call(f, args) => WellFormed(f) && WellFormedArgs(args) && Count(args) <= MAX_ARGUMENTS
    case Cast(a, to) => WellFormed(a) && WritableSet(to)
  }

  ghost predicate WellFormedArgs(args: Args)
    decreases args
  {
    args.Arg? ==> WellFormed(args.first) && WellFormedArgs(args.rest)
  }

  /** No left operand of `or` is printed so that its text ends with a type. */
  predicate Safe(e: Tree)
    decreases e
  {
    match e
    case Leaf(_) => true
    case Name(_) => true
    case Assign(_, rhs) => Safe(rhs)
    case Prefix(_, a) => Safe(a)
    case Binary(op, l, r) => Safe(l) && Safe(r) && !(op == OrOp && EndsInType(l, LeftLevel(op)))
    case Call(f, args) => Safe(f) && SafeArgs(args)
    case Cast(a, _) => Safe(a)
  }

  predicate SafeArgs(args: Args)
    decreases args
  {
    args.Arg? ==> Safe(args.first) && SafeArgs(args.rest)
  }

  predicate StartsExpression(kind: TokenType) {
    kind in {LEFT_PAREN, MINUS, BANG, IDENTIFIER, INTEGER_LITERAL, FLOAT_LITERAL, STRING_LITERAL, NIL, TRUE, FALSE}
  }

  lemma {:induction false} FirstToken(e: Tree, level: nat, guarded: bool, rest: seq<Token>)
    ensures StartsExpression(Kind(Print(e, level, guarded) + rest))
    decreases e
  {
    match e
    case Binary(op, l, r) =>
      var ll := PrintLevel(op, l, guarded);
      FirstToken(l, ll, guarded, []);
      assert Kind(Print(l, ll, guarded) + []) == Kind(Print(l, ll, guarded));
    case Call(f, args) =>
      FirstToken(f, P_CALL, guarded, []);
      assert Kind(Print(f, P_CALL, guarded) + []) == Kind(Print(f, P_CALL, guarded));
    case Cast(a, to) =>
      FirstToken(a, P_AS, guarded, []);
      assert Kind(Print(a, P_AS, guarded) + []) == Kind(Print(a, P_AS, guarded));
    case _ =>
  }

  // ----- reading back -----

  /** Operators below this level, if they come next, do not belong to the text. */
  function Bound(e: Tree, level: nat): nat {
    if LevelOf(e) < level then P_ALWAYS else
    match e
    case Binary(op, _, _) => RightLevel(op)
    case Prefix(_, _) => P_UNARY
    case Assign(_, _) => P_ASSIGNMENT
    case _ => P_ALWAYS
  }

  /** What may come after the text of `e`. */
  ghost predicate Follows(rest: seq<Token>, e: Tree, level: nat) {
    && Kind(rest) != EQUAL_SIGN && NoTypeAfterOr(rest)
    && GetRule(Kind(rest)).precedence < Bound(e, level)
  }

  /** The text of `e`, before `rest`, can be read: no `or` after a type. */
  ghost predicate Readable(e: Tree, level: nat, guarded: bool, rest: seq<Token>) {
    (guarded || Safe(e)) && !(EndsInType(e, level) && Kind(rest) == OR)
  }

  /** What parsing the text of `e` comes to: going on with `e` as the left operand. */
  ghost function Outcome(p: nat, e: Tree, level: nat, guarded: bool, rest: seq<Token>): Parse<Tree>
    requires p > P_NONE
  {
    if Readable(e, level, guarded, rest) then NoTarget(p, Continue(p, e, rest)) else Rejected
  }

  lemma {:induction false} ReadBack(e: Tree, level: nat, p: nat, guarded: bool, rest: seq<Token>)
    requires WellFormed(e) && P_ASSIGNMENT <= p <= level <= P_ALWAYS && Follows(rest, e, level)
    ensures ParseAt(p, Print(e, level, guarded) + rest) == Outcome(p, e, level, guarded, rest)
    decreases e, if LevelOf(e) < level then 4 else 2
  {
    hide ParseAt;
    hide Outcome;
    hide WellFormed;
    hide Follows;
    hide Print;
    if LevelOf(e) < level {
      ReadGrouped(e, level, p, guarded, rest);
    } else {
      match e
      case Leaf(_) => ReadLeaf(e, level, p, guarded, rest);
      case Name(_) => ReadLeaf(e, level, p, guarded, rest);
      case Assign(_, _) => ReadAssign(e, level, p, guarded, rest);
      case Prefix(_, _) => ReadPrefix(e, level, p, guarded, rest);
      case Binary(_, _, _) => ReadBinary(e, level, p, guarded, rest);
      case Call(_, _) => ReadCall(e, level, p, guarded, rest);
      case Cast(_, _) => ReadCast(e, level, p, guarded, rest);
    }
  }

  lemma {:induction false} ReadGrouped(e: Tree, level: nat, p: nat, guarded: bool, rest: seq<Token>)
    requires WellFormed(e) && P_ASSIGNMENT <= p <= level <= P_ALWAYS && Follows(rest, e, level) && LevelOf(e) < level
    ensures ParseAt(p, Print(e, level, guarded) + rest) == Outcome(p, e, level, guarded, rest)
    decreases e, 3
  {
    hide ParseAt;
    hide Continue;
    hide WellFormed;
    var close := [Sym(RIGHT_PAREN)] + rest;
    GroupedText(e, level, guarded, rest);
    GroupedParts(e, level, guarded, rest);
    hide Print;
    hide Readable;
    hide Follows;
    ReadBack(e, P_ASSIGNMENT, P_ASSIGNMENT, guarded, close);
    Stops(P_ASSIGNMENT, e, close);
    Grouped(p, Print(e, level, guarded) + rest);
  }

  lemma GroupedText(e: Tree, level: nat, guarded: bool, rest: seq<Token>)
    requires LevelOf(e) < level
    ensures
      var ts := Print(e, level, guarded) + rest;
      var close := [Sym(RIGHT_PAREN)] + rest;
      Kind(ts) == LEFT_PAREN && ts[1..] == Print(e, P_ASSIGNMENT, guarded) + close && close[1..] == rest
  {
    hide Bare;
    var text, close := Bare(e, guarded), [Sym(RIGHT_PAREN)];
    assert Print(e, level, guarded) == [Sym(LEFT_PAREN)] + text + close;
    Unwrapped(e, P_ASSIGNMENT, guarded);
    hide Print;
    Regroup([Sym(LEFT_PAREN)], text, close, rest);
  }

  lemma GroupedParts(e: Tree, level: nat, guarded: bool, rest: seq<Token>)
    requires LevelOf(e) < level
    ensures
      var close := [Sym(RIGHT_PAREN)] + rest;
      && Follows(close, e, P_ASSIGNMENT) && GetRule(Kind(close)).precedence == P_NONE && Kind(close) == RIGHT_PAREN
      && (Readable(e, level, guarded, rest) <==> Readable(e, P_ASSIGNMENT, guarded, close))
  {
    hide Safe;
  }

  lemma Stops(p: nat, e: Tree, rest: seq<Token>)
    requires p > GetRule(Kind(rest)).precedence
    ensures Continue(p, e, rest) == Got(e, rest)
    ensures Kind(rest) != EQUAL_SIGN ==> NoTarget(p, Continue(p, e, rest)) == Got(e, rest)
  {
  }

  lemma Grouped(p: nat, ts: seq<Token>)
    requires p > P_NONE && Kind(ts) == LEFT_PAREN
    ensures
      var r := ParseAt(P_ASSIGNMENT, ts[1..]);
      && (r.Got? && Kind(r.rest) == RIGHT_PAREN ==> ParseAt(p, ts) == NoTarget(p, Continue(p, r.value, r.rest[1..])))
      && (r.Rejected? ==> ParseAt(p, ts) == Rejected)
  {
    hide Continue;
  }

  lemma Unwrapped(e: Tree, level: nat, guarded: bool)
    requires level <= LevelOf(e)
    ensures Print(e, level, guarded) == Bare(e, guarded)
  {
    hide Bare;
  }

  /** The parts of the text of `e`. */
  lemma Texts(e: Tree, guarded: bool)
    ensures e.Assign? ==> Bare(e, guarded) == [Ident(e.name), Sym(EQUAL_SIGN)] + Print(e.rhs, P_ASSIGNMENT, guarded)
    ensures e.Prefix? ==> Bare(e, guarded) == [Sym(UnaryKind(e.uop))] + Print(e.arg, P_UNARY, guarded)
    ensures e.Binary? ==>
      Bare(e, guarded) == Print(e.left, PrintLevel(e.op, e.left, guarded), guarded) + [Sym(InfixKind(e.op))] + Print(e.right, RightLevel(e.op), guarded)
    ensures e.Call? ==> Bare(e, guarded) == Print(e.callee, P_CALL, guarded) + [Sym(LEFT_PAREN)] + PrintArgs(e.args, guarded) + [Sym(RIGHT_PAREN)]
    ensures e.Cast? ==> Bare(e, guarded) == Print(e.arg, P_AS, guarded) + [Sym(AS)] + UnionTokens(e.to.types)
  {
    hide Print;
    hide PrintArgs;
    hide PrintLevel;
    hide RightLevel;
    hide UnionTokens;
  }

  lemma LeafText(e: Tree, level: nat, guarded: bool, rest: seq<Token>)
    requires (e.Leaf? || e.Name?) && level <= P_PRIMARY
    ensures
      var t := if e.Leaf? then LiteralToken(e.value) else Ident(e.name);
      Print(e, level, guarded) + rest == [t] + rest && (Print(e, level, guarded) + rest)[1..] == rest
  {
    Unwrapped(e, level, guarded);
    hide Print;
    hide LiteralToken;
  }

  lemma AssignText(e: Tree, level: nat, guarded: bool, rest: seq<Token>)
    requires e.Assign? && level <= LevelOf(e)
    ensures
      var right := Print(e.rhs, P_ASSIGNMENT, guarded) + rest;
      var ts := Print(e, level, guarded) + rest;
      ts == [Ident(e.name), Sym(EQUAL_SIGN)] + right && ts[1..] == [Sym(EQUAL_SIGN)] + right && ts[2..] == right
  {
    Unwrapped(e, level, guarded);
    Texts(e, guarded);
    hide Print;
    hide Bare;
  }

  lemma PrefixText(e: Tree, level: nat, guarded: bool, rest: seq<Token>)
    requires e.Prefix? && level <= LevelOf(e)
    ensures
      var right := Print(e.arg, P_UNARY, guarded) + rest;
      var ts := Print(e, level, guarded) + rest;
      Kind(ts) == UnaryKind(e.uop) && ts[1..] == right
  {
    Unwrapped(e, level, guarded);
    Texts(e, guarded);
    hide Print;
    hide Bare;
  }

  lemma BinaryText(e: Tree, level: nat, guarded: bool, rest: seq<Token>)
    requires e.Binary? && level <= LevelOf(e)
    ensures
      var right := Print(e.right, RightLevel(e.op), guarded) + rest;
      var after := [Sym(InfixKind(e.op))] + right;
      && Print(e, level, guarded) + rest == Print(e.left, PrintLevel(e.op, e.left, guarded), guarded) + after
      && after[1..] == right
  {
    Unwrapped(e, level, guarded);
    Texts(e, guarded);
    hide Print;
    hide Bare;
    hide PrintLevel;
    hide RightLevel;
    Regroup(Print(e.left, PrintLevel(e.op, e.left, guarded), guarded), [Sym(InfixKind(e.op))], Print(e.right, RightLevel(e.op), guarded), rest);
  }

  lemma CastText(e: Tree, level: nat, guarded: bool, rest: seq<Token>)
    requires e.Cast? && level <= LevelOf(e)
    ensures
      var to := UnionTokens(e.to.types) + rest;
      var after := [Sym(AS)] + to;
      Print(e, level, guarded) + rest == Print(e.arg, P_AS, guarded) + after && after[1..] == to
  {
    Unwrapped(e, level, guarded);
    Texts(e, guarded);
    hide UnionTokens;
    hide Print;
    hide Bare;
    Regroup(Print(e.arg, P_AS, guarded), [Sym(AS)], UnionTokens(e.to.types), rest);
  }

  lemma CallText(e: Tree, level: nat, guarded: bool, rest: seq<Token>)
    requires e.Call? && level <= LevelOf(e)
    ensures
      var inside := PrintArgs(e.args, guarded) + ([Sym(RIGHT_PAREN)] + rest);
      var after := [Sym(LEFT_PAREN)] + inside;
      Print(e, level, guarded) + rest == Print(e.callee, P_CALL, guarded) + after && after[1..] == inside
  {
    Unwrapped(e, level, guarded);
    Texts(e, guarded);
    hide PrintArgs;
    hide Print;
    hide Bare;
    var f, args := Print(e.callee, P_CALL, guarded), PrintArgs(e.args, guarded);
    Regroup(f + [Sym(LEFT_PAREN)], args, [Sym(RIGHT_PAREN)], rest);
    Regroup(f, [Sym(LEFT_PAREN)], args, [Sym(RIGHT_PAREN)] + rest);
    assert f + [Sym(LEFT_PAREN)] + (args + ([Sym(RIGHT_PAREN)] + rest)) == f + ([Sym(LEFT_PAREN)] + (args + ([Sym(RIGHT_PAREN)] + rest)));
  }

  lemma ReadLeaf(e: Tree, level: nat, p: nat, guarded: bool, rest: seq<Token>)
    requires e.Leaf? || e.Name?
    requires WellFormed(e) && P_ASSIGNMENT <= p <= level <= LevelOf(e) && Follows(rest, e, level)
    ensures ParseAt(p, Print(e, level, guarded) + rest) == Outcome(p, e, level, guarded, rest)
  {
    hide Continue;
    LeafText(e, level, guarded, rest);
    hide Print;
    if e.Leaf? { assert LiteralOf(LiteralToken(e.value)) == e.value; }
  }

  lemma RightParts(e: Tree, level: nat, guarded: bool, rest: seq<Token>)
    requires (e.Assign? || e.Prefix?) && level <= LevelOf(e) && Follows(rest, e, level)
    ensures
      var inner, own := if e.Assign? then e.rhs else e.arg, LevelOf(e);
      && Follows(rest, inner, own) && GetRule(Kind(rest)).precedence < own
      && (Readable(e, level, guarded, rest) <==> Readable(inner, own, guarded, rest))
  {
    hide GetRule;
    hide InfixKind;
    hide NoTypeAfterOr;
    var inner := if e.Assign? then e.rhs else e.arg;
    if inner.Binary? { StrengthOf(inner.op); }
  }

  lemma {:induction false} ReadAssign(e: Tree, level: nat, p: nat, guarded: bool, rest: seq<Token>)
    requires e.Assign?
    requires WellFormed(e) && P_ASSIGNMENT <= p <= level <= LevelOf(e) && Follows(rest, e, level)
    ensures ParseAt(p, Print(e, level, guarded) + rest) == Outcome(p, e, level, guarded, rest)
    decreases e, 1
  {
    hide Continue;
    hide ParseAt;
    AssignText(e, level, guarded, rest);
    RightParts(e, level, guarded, rest);
    hide Print;
    hide Readable;
    hide Bound;
    hide GetRule;
    ReadBack(e.rhs, P_ASSIGNMENT, P_ASSIGNMENT, guarded, rest);
    Stops(P_ASSIGNMENT, e.rhs, rest);
    AssignedName(p, Print(e, level, guarded) + rest);
  }

  lemma AssignedName(p: nat, ts: seq<Token>)
    requires p == P_ASSIGNMENT && Kind(ts) == IDENTIFIER && Kind(ts[1..]) == EQUAL_SIGN
    ensures
      var r := ParseAt(P_ASSIGNMENT, ts[2..]);
      && (r.Got? ==> ParseAt(p, ts) == NoTarget(p, Continue(p, Assign(ts[0].name, r.value), r.rest)))
      && (r.Rejected? ==> ParseAt(p, ts) == Rejected)
  {
    hide Continue;
  }

  lemma {:induction false} ReadPrefix(e: Tree, level: nat, p: nat, guarded: bool, rest: seq<Token>)
    requires e.Prefix?
    requires WellFormed(e) && P_ASSIGNMENT <= p <= level <= LevelOf(e) && Follows(rest, e, level)
    ensures ParseAt(p, Print(e, level, guarded) + rest) == Outcome(p, e, level, guarded, rest)
    decreases e, 1
  {
    hide Continue;
    hide ParseAt;
    PrefixText(e, level, guarded, rest);
    RightParts(e, level, guarded, rest);
    assert WellFormed(e.arg) && UnaryOf(UnaryKind(e.uop)) == e.uop && UnaryKind(e.uop) in {MINUS, BANG};
    hide UnaryKind;
    hide UnaryOf;
    hide WellFormed;
    hide Follows;
    hide Print;
    hide Readable;
    hide Bound;
    hide GetRule;
    ReadBack(e.arg, P_UNARY, P_UNARY, guarded, rest);
    Stops(P_UNARY, e.arg, rest);
    PrefixedBy(p, Print(e, level, guarded) + rest);
  }

  lemma PrefixedBy(p: nat, ts: seq<Token>)
    requires p > P_NONE && Kind(ts) in {MINUS, BANG}
    ensures
      var r := ParseAt(P_UNARY, ts[1..]);
      && (r.Got? ==> ParseAt(p, ts) == NoTarget(p, Continue(p, Prefix(UnaryOf(Kind(ts)), r.value), r.rest)))
      && (r.Rejected? ==> ParseAt(p, ts) == Rejected)
  {
    hide Continue;
  }

  /** An operator is not taken for part of its left operand. */
  lemma LeftHolds(op: Infix, l: Tree, guarded: bool)
    ensures Strength(op) <= PrintLevel(op, l, guarded) <= P_ALWAYS && Strength(op) < Bound(l, PrintLevel(op, l, guarded))
    ensures P_ASSIGNMENT <= Strength(op) <= RightLevel(op) <= P_ALWAYS
  {
    hide EndsInType;
    hide InfixKind;
    StrengthOf(op);
    if l.Binary? { StrengthOf(l.op); }
  }

  lemma StrengthOf(op: Infix)
    ensures op == OrOp ==> Strength(op) == P_OR
    ensures op == AndOp ==> Strength(op) == P_AND
    ensures op.Op? ==> P_EQUALITY <= Strength(op) <= P_FACTOR
    ensures InfixKind(op) == OR <==> op == OrOp
    ensures InfixKind(op) != EQUAL_SIGN
  {
  }

  /** And nothing that follows is taken for part of its right operand. */
  lemma RightHolds(op: Infix, r: Tree, rest: seq<Token>)
    requires Kind(rest) != EQUAL_SIGN && NoTypeAfterOr(rest) && GetRule(Kind(rest)).precedence < RightLevel(op)
    ensures Follows(rest, r, RightLevel(op))
  {
    hide NoTypeAfterOr;
    hide GetRule;
    hide InfixKind;
    StrengthOf(op);
    if r.Binary? { StrengthOf(r.op); }
  }

  lemma Operands(e: Tree, level: nat, guarded: bool, rest: seq<Token>)
    requires e.Binary? && level <= LevelOf(e) && Follows(rest, e, level)
    ensures
      var ll := PrintLevel(e.op, e.left, guarded);
      var after := [Sym(InfixKind(e.op))] + (Print(e.right, RightLevel(e.op), guarded) + rest);
      && level <= ll <= P_ALWAYS && Follows(after, e.left, ll)
      && P_ASSIGNMENT <= RightLevel(e.op) <= P_ALWAYS && Follows(rest, e.right, RightLevel(e.op))
  {
    var right := Print(e.right, RightLevel(e.op), guarded) + rest;
    FirstToken(e.right, RightLevel(e.op), guarded, rest);
    assert ([Sym(InfixKind(e.op))] + right)[1..] == right;
    hide Print;
    LeftHolds(e.op, e.left, guarded);
    RightHolds(e.op, e.right, rest);
    StrengthOf(e.op);
    hide EndsInType;
    hide PrintLevel;
    hide RightLevel;
    hide InfixKind;
    hide BinaryKind;
  }

  lemma {:induction false} ReadBinary(e: Tree, level: nat, p: nat, guarded: bool, rest: seq<Token>)
    requires e.Binary?
    requires WellFormed(e) && P_ASSIGNMENT <= p <= level <= LevelOf(e) && Follows(rest, e, level)
    ensures ParseAt(p, Print(e, level, guarded) + rest) == Outcome(p, e, level, guarded, rest)
    decreases e, 1
  {
    var ll, rl := PrintLevel(e.op, e.left, guarded), RightLevel(e.op);
    var right := Print(e.right, rl, guarded);
    var after := [Sym(InfixKind(e.op))] + (right + rest);
    Operands(e, level, guarded, rest);
    BinaryText(e, level, guarded, rest);
    hide Print;
    hide ParseAt;
    hide Continue;
    hide Readable;
    hide PrintLevel;
    hide RightLevel;
    ReadBack(e.left, ll, p, guarded, after);
    ReadBack(e.right, rl, rl, guarded, rest);
    Stops(rl, e.right, rest);
    BinaryGoesOn(p, e.left, e.op, after);
    BinaryReadable(e, level, guarded, rest);
  }

  /** Reading the operator and the right operand. */
  lemma BinaryGoesOn(p: nat, lhs: Tree, op: Infix, ts: seq<Token>)
    requires P_NONE < p <= Strength(op) && Kind(ts) == InfixKind(op)
    ensures
      var r := ParseAt(RightLevel(op), ts[1..]);
      && (r.Got? ==> Continue(p, lhs, ts) == Continue(p, Binary(op, lhs, r.value), r.rest))
      && (r.Rejected? ==> Continue(p, lhs, ts) == Rejected)
  {
    hide ParseAt;
    assert ParseInfix(lhs, ts) == ParseRight(lhs, op, ts[1..]);
  }

  lemma BinaryReadable(e: Tree, level: nat, guarded: bool, rest: seq<Token>)
    requires e.Binary? && level <= LevelOf(e)
    ensures
      var ll, rl := PrintLevel(e.op, e.left, guarded), RightLevel(e.op);
      var after := [Sym(InfixKind(e.op))] + (Print(e.right, rl, guarded) + rest);
      Readable(e, level, guarded, rest) <==> Readable(e.left, ll, guarded, after) && Readable(e.right, rl, guarded, rest)
  {
    hide Print;
    assert EndsInType(e, level) == EndsInType(e.right, RightLevel(e.op));
    assert InfixKind(e.op) == OR <==> e.op == OrOp;
    assert !EndsInType(e.left, P_ALWAYS);
  }

  lemma CastParts(e: Tree, level: nat, guarded: bool, rest: seq<Token>)
    requires e.Cast? && level <= LevelOf(e)
    ensures
      var after := [Sym(AS)] + (UnionTokens(e.to.types) + rest);
      && Follows(after, e.arg, P_AS)
      && (Readable(e, level, guarded, rest) <==> Readable(e.arg, P_AS, guarded, after) && Kind(rest) != OR)
  {
    hide UnionTokens;
  }

  lemma {:induction false} ReadCast(e: Tree, level: nat, p: nat, guarded: bool, rest: seq<Token>)
    requires e.Cast?
    requires WellFormed(e) && P_ASSIGNMENT <= p <= level <= LevelOf(e) && Follows(rest, e, level)
    ensures ParseAt(p, Print(e, level, guarded) + rest) == Outcome(p, e, level, guarded, rest)
    decreases e, 1
  {
    hide Continue;
    hide ParseAt;
    hide ParseTypeSet;
    var after := [Sym(AS)] + (UnionTokens(e.to.types) + rest);
    CastText(e, level, guarded, rest);
    CastParts(e, level, guarded, rest);
    hide Print;
    hide UnionTokens;
    hide Readable;
    ReadBack(e.arg, P_AS, p, guarded, after);
    CastType(e.to, rest);
    CastGoesOn(p, e.arg, after);
  }

  lemma CastType(to: TypeSet, rest: seq<Token>)
    requires WritableSet(to) && NoTypeAfterOr(rest)
    ensures ParseTypeSet(UnionTokens(to.types) + rest, []) == if Kind(rest) == OR then Rejected else Got(to, rest)
  {
    hide ParseTypeSet;
    hide UnionTokens;
    hide Writable;
    assert [] + to.types == to.types;
    UnionReadBack([], to.types, rest);
  }

  lemma CastGoesOn(p: nat, lhs: Tree, ts: seq<Token>)
    requires P_NONE < p <= P_AS && Kind(ts) == AS
    ensures
      var r := ParseTypeSet(ts[1..], []);
      && (r.Got? ==> Continue(p, lhs, ts) == Continue(p, Cast(lhs, r.value), r.rest))
      && (r.Rejected? ==> Continue(p, lhs, ts) == Rejected)
  {
    hide ParseTypeSet;
  }

  lemma CallParts(e: Tree, level: nat, guarded: bool, rest: seq<Token>)
    requires e.Call? && level <= LevelOf(e)
    ensures
      var after := [Sym(LEFT_PAREN)] + (PrintArgs(e.args, guarded) + ([Sym(RIGHT_PAREN)] + rest));
      && Follows(after, e.callee, P_CALL)
      && (Readable(e, level, guarded, rest) <==> Readable(e.callee, P_CALL, guarded, after) && (guarded || SafeArgs(e.args)))
  {
    hide PrintArgs;
    hide SafeArgs;
  }

  lemma {:induction false} ReadCall(e: Tree, level: nat, p: nat, guarded: bool, rest: seq<Token>)
    requires e.Call?
    requires WellFormed(e) && P_ASSIGNMENT <= p <= level <= LevelOf(e) && Follows(rest, e, level)
    ensures ParseAt(p, Print(e, level, guarded) + rest) == Outcome(p, e, level, guarded, rest)
    decreases e, 1
  {
    hide Continue;
    hide ParseAt;
    hide ParseArgs;
    var after := [Sym(LEFT_PAREN)] + (PrintArgs(e.args, guarded) + ([Sym(RIGHT_PAREN)] + rest));
    CallText(e, level, guarded, rest);
    CallParts(e, level, guarded, rest);
    hide Print;
    hide PrintArgs;
    hide Readable;
    hide SafeArgs;
    hide Bound;
    ReadBack(e.callee, P_CALL, p, guarded, after);
    ArgsReadBack(e.args, 0, guarded, rest);
    CallGoesOn(p, e.callee, after);
  }

  lemma CallGoesOn(p: nat, lhs: Tree, ts: seq<Token>)
    requires P_NONE < p <= P_CALL && Kind(ts) == LEFT_PAREN
    ensures
      var r := ParseArgs(ts[1..], 0);
      && (r.Got? ==> Continue(p, lhs, ts) == Continue(p, Call(lhs, r.value), r.rest))
      && (r.Rejected? ==> Continue(p, lhs, ts) == Rejected)
  {
    hide ParseArgs;
  }

  function AfterArgument(args: Args, guarded: bool, end: seq<Token>): seq<Token>
    requires args.Arg?
  {
    if args.rest.NoArgs? then end else [Sym(COMMA)] + (PrintArgs(args.rest, guarded) + end)
  }

  lemma ArgsText(args: Args, guarded: bool, rest: seq<Token>)
    requires args.Arg?
    ensures
      var end := [Sym(RIGHT_PAREN)] + rest;
      var after := AfterArgument(args, guarded, end);
      && PrintArgs(args, guarded) + end == Print(args.first, P_ASSIGNMENT, guarded) + after
      && (args.rest.Arg? ==> Kind(after) == COMMA && after[1..] == PrintArgs(args.rest, guarded) + end)
      && (args.rest.NoArgs? ==> Kind(after) == RIGHT_PAREN && after[1..] == rest)
      && Follows(after, args.first, P_ASSIGNMENT) && GetRule(Kind(after)).precedence == P_NONE
      && (Readable(args.first, P_ASSIGNMENT, guarded, after) <==> guarded || Safe(args.first))
  {
    hide Print;
    hide Safe;
    hide EndsInType;
    var end := [Sym(RIGHT_PAREN)] + rest;
    if args.rest.Arg? {
      var first, more := Print(args.first, P_ASSIGNMENT, guarded), PrintArgs(args.rest, guarded);
      assert PrintArgs(args, guarded) == first + [Sym(COMMA)] + more;
      hide PrintArgs;
      Regroup(first, [Sym(COMMA)], more, end);
    }
  }

  lemma ArgsStep(ts: seq<Token>, count: nat)
    requires Kind(ts) != RIGHT_PAREN && count < MAX_ARGUMENTS
    ensures
      var r := ParseAt(P_ASSIGNMENT, ts);
      && (r.Rejected? ==> ParseArgs(ts, count) == Rejected)
      && (r.Got? && Kind(r.rest) == RIGHT_PAREN ==> ParseArgs(ts, count) == Got(Arg(r.value, NoArgs), r.rest[1..]))
      && (r.Got? && Kind(r.rest) == COMMA ==>
            var more := ParseArgs(r.rest[1..], count + 1);
            ParseArgs(ts, count) == if more.Got? then Got(Arg(r.value, more.value), more.rest) else more)
  {
    hide ParseAt;
  }

  lemma {:induction false} ArgsReadBack(args: Args, count: nat, guarded: bool, rest: seq<Token>)
    requires WellFormedArgs(args) && count + Count(args) <= MAX_ARGUMENTS
    ensures ParseArgs(PrintArgs(args, guarded) + ([Sym(RIGHT_PAREN)] + rest), count)
         == if guarded || SafeArgs(args) then Got(args, rest) else Rejected
    decreases args, 4
  {
    hide ParseAt;
    hide Print;
    hide Continue;
    hide WellFormed;
    hide Safe;
    var end := [Sym(RIGHT_PAREN)] + rest;
    assert end[1..] == rest;
    if args.NoArgs? {
      assert PrintArgs(args, guarded) + end == end;
    } else {
      hide ParseArgs;
      var after := AfterArgument(args, guarded, end);
      ArgsText(args, guarded, rest);
      hide PrintArgs;
      hide AfterArgument;
      hide Readable;
      hide Follows;
      FirstToken(args.first, P_ASSIGNMENT, guarded, after);
      ReadBack(args.first, P_ASSIGNMENT, P_ASSIGNMENT, guarded, after);
      Stops(P_ASSIGNMENT, args.first, after);
      ArgsStep(PrintArgs(args, guarded) + end, count);
      if args.rest.Arg? { ArgsReadBack(args.rest, count + 1, guarded, rest); }
    }
  }

  // ----- the theorems -----

  /** Where an expression ends: at a token that neither continues nor assigns. */
  ghost predicate EndsExpression(rest: seq<Token>) {
    GetRule(Kind(rest)).precedence == P_NONE && Kind(rest) != EQUAL_SIGN
  }

  /** Printed with as few parentheses as the rule table asks for, an expression is read
      back, and exactly its tokens are consumed, if and only if no left operand of `or`
      ends with the type of a cast; otherwise the text is rejected. */
  lemma RoundTrip(e: Tree, rest: seq<Token>)
    requires WellFormed(e) && EndsExpression(rest)
    ensures ParseAt(P_ASSIGNMENT, Print(e, P_ASSIGNMENT, false) + rest) == if Safe(e) then Got(e, rest) else Rejected
  {
    ReadBack(e, P_ASSIGNMENT, P_ASSIGNMENT, false, rest);
    Stops(P_ASSIGNMENT, e, rest);
  }

  /** With parentheses around those operands, every expression is read back. */
  lemma GuardedRoundTrip(e: Tree, rest: seq<Token>)
    requires WellFormed(e) && EndsExpression(rest)
    ensures ParseAt(P_ASSIGNMENT, Print(e, P_ASSIGNMENT, true) + rest) == Got(e, rest)
  {
    ReadBack(e, P_ASSIGNMENT, P_ASSIGNMENT, true, rest);
    Stops(P_ASSIGNMENT, e, rest);
  }

  /** `a as Int or b`, for the disjunction of a cast and `b`: `or b` is taken for one more
      member of the type, and rejected. */
  lemma CastBeforeOr(a: string, b: string)
    ensures
      var e := Binary(OrOp, Cast(Name(a), TypeSet([IntType])), Name(b));
      && Print(e, P_ASSIGNMENT, false) == [Ident(a), Sym(AS), Sym(INT_TYPE), Sym(OR), Ident(b)]
      && ParseAt(P_ASSIGNMENT, Print(e, P_ASSIGNMENT, false)) == Rejected
  {
    hide WellFormed;
    hide Print;
    hide ParseAt;
    var cast := Cast(Name(a), TypeSet([IntType]));
    var e := Binary(OrOp, cast, Name(b));
    var text := Print(e, P_ASSIGNMENT, false);
    assert EndsInType(cast, LeftLevel(OrOp)) && !Safe(e);
    CastIsWellFormed(a, b);
    CastTokens(a, LeftLevel(OrOp));
    BinaryText(e, P_ASSIGNMENT, false, []);
    LeafText(Name(b), RightLevel(OrOp), false, []);
    RoundTrip(e, []);
    assert text + [] == text;
  }

  lemma CastIsWellFormed(a: string, b: string)
    ensures WellFormed(Binary(OrOp, Cast(Name(a), TypeSet([IntType])), Name(b)))
  {
    var to := TypeSet([IntType]);
    assert NoDuplicates(to) && forall t <- to.types :: Writable(t);
    assert WritableSet(to);
    hide WritableSet;
    assert WellFormed(Cast(Name(a), to));
  }

  lemma CastTokens(a: string, level: nat)
    requires level <= P_AS
    ensures Print(Cast(Name(a), TypeSet([IntType])), level, false) == [Ident(a), Sym(AS), Sym(INT_TYPE)]
  {
    var cast := Cast(Name(a), TypeSet([IntType]));
    assert UnionTokens([IntType]) == TypeTokens(IntType) == [Sym(INT_TYPE)];
    CastText(cast, level, false, []);
    LeafText(Name(a), P_AS, false, []);
    hide Print;
    assert Print(cast, level, false) + [] == Print(cast, level, false);
    assert Print(Name(a), P_AS, false) + [] == Print(Name(a), P_AS, false);
  }

  // ----- every accepted text has a tree that can be printed -----

  /** The scanner gives literal tokens the values of their kind. */
  ghost predicate Scanned(ts: seq<Token>) {
    forall t <- ts :: t.kind in {INTEGER_LITERAL, FLOAT_LITERAL, STRING_LITERAL} ==> !t.value.Function? && !t.value.Closure?
  }

  lemma ScannedRest(ts: seq<Token>, n: nat)
    requires Scanned(ts) && n <= |ts|
    ensures Scanned(ts[n..])
  {
  }

  lemma {:induction false} ParsedType(ts: seq<Token>)
    requires Scanned(ts)
    ensures var r := ParseType(ts); r.Got? ==> Writable(r.value) && Scanned(r.rest)
    decreases |ts|, 0, 1
  {
    hide Scanned;
    if Kind(ts) == FN_TYPE {
      hide ParseType;
      hide Writable;
      if ParseType(ts).Got? { ParsedFunctionType(ts); }
    } else if ts != [] {
      ScannedRest(ts, 1);
    }
  }

  lemma FunctionTypeGot(ts: seq<Token>)
    requires Kind(ts) == FN_TYPE && ParseType(ts).Got?
    ensures |ts| > 3 && ParseTypeSets(ts[3..]).Got?
    ensures
      var list := ParseTypeSets(ts[3..]);
      && Kind(list.rest) == COMMA && ParseTypeSet(list.rest[1..], []).Got?
      && Kind(ParseTypeSet(list.rest[1..], []).rest) == RIGHT_CHEVRON
      && ParseType(ts) == Got(FunctionType(list.value, ParseTypeSet(list.rest[1..], []).value), ParseTypeSet(list.rest[1..], []).rest[1..])
  {
    hide ParseTypeSet;
    hide ParseTypeSets;
    assert ParseType(ts) == ParseFunctionType(ts[1..]);
    var tail := ts[1..];
    assert Kind(tail) == LEFT_CHEVRON == Kind(tail[1..]);
    assert tail[1..] == ts[2..] && tail[2..] == ts[3..];
    assert ParseFunctionType(tail) == ParseReturnType(ParseTypeSets(ts[3..]).value, ParseTypeSets(ts[3..]).rest);
  }

  lemma {:induction false} ParsedFunctionType(ts: seq<Token>)
    requires Scanned(ts) && Kind(ts) == FN_TYPE && ParseType(ts).Got?
    ensures var r := ParseType(ts); Writable(r.value) && Scanned(r.rest)
    decreases |ts|, 0, 0
  {
    FunctionTypeGot(ts);
    hide ParseType;
    hide ParseTypeSet;
    hide ParseTypeSets;
    hide Scanned;
    hide WritableSet;
    var list := ParseTypeSets(ts[3..]);
    ScannedRest(ts, 3);
    ParsedTypeSets(ts[3..]);
    ScannedRest(list.rest, 1);
    ParsedTypeSet(list.rest[1..], []);
    ScannedRest(ParseTypeSet(list.rest[1..], []).rest, 1);
  }

  lemma {:induction false} ParsedTypeSet(ts: seq<Token>, soFar: seq<TypeInfo>)
    requires Scanned(ts) && NoDuplicates(TypeSet(soFar)) && forall t <- soFar :: Writable(t)
    ensures var r := ParseTypeSet(ts, soFar); r.Got? ==> WritableSet(r.value) && Scanned(r.rest)
    decreases |ts|, 1
  {
    hide ParseType;
    hide Scanned;
    ParsedType(ts);
    var r := ParseType(ts);
    if r.Got? {
      MemberAdded(soFar, r.value);
      hide NoDuplicates;
      hide Added;
      hide Writable;
      if Kind(r.rest) == OR {
        ScannedRest(r.rest, 1);
        ParsedTypeSet(r.rest[1..], Added(soFar, r.value));
      }
    }
  }

  lemma MemberAdded(soFar: seq<TypeInfo>, t: TypeInfo)
    requires NoDuplicates(TypeSet(soFar)) && Writable(t) && forall x <- soFar :: Writable(x)
    ensures Added(soFar, t) != [] && NoDuplicates(TypeSet(Added(soFar, t))) && forall x <- Added(soFar, t) :: Writable(x)
  {
    hide Equal;
    forall i | 0 <= i < |soFar| && !Contains(TypeSet(soFar), t) ensures !Equal(soFar[i], t) { assert soFar[i] in soFar; }
  }

  lemma {:induction false} ParsedTypeSets(ts: seq<Token>)
    requires Scanned(ts)
    ensures var r := ParseTypeSets(ts); r.Got? ==> (forall s <- r.value :: WritableSet(s)) && Scanned(r.rest)
    decreases |ts|, 2
  {
    hide ParseTypeSet;
    hide Scanned;
    hide WritableSet;
    if ts != [] { ScannedRest(ts, 1); }
    if Kind(ts) != RIGHT_CHEVRON {
      ParsedTypeSet(ts, []);
      var r := ParseTypeSet(ts, []);
      if r.Got? && r.rest != [] {
        ScannedRest(r.rest, 1);
        if Kind(r.rest) == COMMA { ParsedTypeSets(r.rest[1..]); }
      }
    }
  }

  lemma {:induction false} Parsed(p: nat, ts: seq<Token>)
    requires p > P_NONE && Scanned(ts)
    ensures var r := ParseAt(p, ts); r.Got? ==> WellFormed(r.value) && Scanned(r.rest)
    decreases |ts|, 3
  {
    hide ParsePrefix;
    hide Continue;
    hide WellFormed;
    hide Scanned;
    ParsedPrefix(p <= P_ASSIGNMENT, ts);
    var r := ParsePrefix(p <= P_ASSIGNMENT, ts);
    if r.Got? { ParsedOn(p, r.value, r.rest); }
  }

  lemma {:induction false} ParsedPrefix(canAssign: bool, ts: seq<Token>)
    requires Scanned(ts)
    ensures var r := ParsePrefix(canAssign, ts); r.Got? ==> WellFormed(r.value) && Scanned(r.rest)
    decreases |ts|, 2
  {
    hide ParseAt;
    if ts != [] {
      ScannedRest(ts, 1);
      assert ts[0] in ts;
      hide Scanned;
      match GetRule(Kind(ts)).prefix
      case Some(GroupingRule) =>
        Parsed(P_ASSIGNMENT, ts[1..]);
        var r := ParseAt(P_ASSIGNMENT, ts[1..]);
        if r.Got? && r.rest != [] { ScannedRest(r.rest, 1); }
      case Some(UnaryRule) => Parsed(P_UNARY, ts[1..]);
      case Some(VariableRule) =>
        if Kind(ts[1..]) == EQUAL_SIGN {
          ScannedRest(ts, 2);
          Parsed(P_ASSIGNMENT, ts[2..]);
        }
      case _ =>
    }
  }

  lemma {:induction false} ParsedOn(p: nat, lhs: Tree, ts: seq<Token>)
    requires p > P_NONE && Scanned(ts) && WellFormed(lhs)
    ensures var r := Continue(p, lhs, ts); r.Got? ==> WellFormed(r.value) && Scanned(r.rest)
    decreases |ts|, 1
  {
    hide ParseInfix;
    hide WellFormed;
    hide Scanned;
    if p <= GetRule(Kind(ts)).precedence {
      ParsedInfix(lhs, ts);
      var r := ParseInfix(lhs, ts);
      if r.Got? { ParsedOn(p, r.value, r.rest); }
    }
  }

  lemma {:induction false} ParsedInfix(lhs: Tree, ts: seq<Token>)
    requires GetRule(Kind(ts)).infix.Some? && Scanned(ts) && WellFormed(lhs)
    ensures var r := ParseInfix(lhs, ts); r.Got? ==> WellFormed(r.value) && Scanned(r.rest)
    decreases |ts|, 0
  {
    hide ParseAt;
    hide ParseArgs;
    hide ParseTypeSet;
    hide Scanned;
    hide WritableSet;
    ScannedRest(ts, 1);
    match GetRule(Kind(ts)).infix.value
    case BinaryRule => Parsed(RightLevel(Op(BinaryOf(Kind(ts)))), ts[1..]);
    case AndRule => Parsed(P_AND, ts[1..]);
    case OrRule => Parsed(P_OR, ts[1..]);
    case CallRule => ParsedArgs(ts[1..], 0);
    case AsRule => ParsedTypeSet(ts[1..], []);
  }

  lemma {:induction false} ParsedArgs(ts: seq<Token>, count: nat)
    requires Scanned(ts) && count <= MAX_ARGUMENTS
    ensures var r := ParseArgs(ts, count); r.Got? ==> WellFormedArgs(r.value) && Scanned(r.rest) && count + Count(r.value) <= MAX_ARGUMENTS
    decreases |ts|, 4
  {
    hide ParseAt;
    hide WellFormed;
    hide Scanned;
    if ts != [] { ScannedRest(ts, 1); }
    if Kind(ts) != RIGHT_PAREN {
      Parsed(P_ASSIGNMENT, ts);
      var r := ParseAt(P_ASSIGNMENT, ts);
      if r.Got? && r.rest != [] {
        ScannedRest(r.rest, 1);
        if Kind(r.rest) == COMMA && count < MAX_ARGUMENTS { ParsedArgs(r.rest[1..], count + 1); }
      }
    }
  }

  /** Whatever text is accepted, with all its own parentheses, the printed form of its
      tree is another text of the same tree. */
  lemma CanonicalText(ts: seq<Token>, rest: seq<Token>)
    requires Scanned(ts) && ParseAt(P_ASSIGNMENT, ts).Got? && EndsExpression(rest)
    ensures
      var e := ParseAt(P_ASSIGNMENT, ts).value;
      ParseAt(P_ASSIGNMENT, Print(e, P_ASSIGNMENT, true) + rest) == Got(e, rest)
  {
    Parsed(P_ASSIGNMENT, ts);
    GuardedRoundTrip(ParseAt(P_ASSIGNMENT, ts).value, rest);
  }

  // ----- what is compiled -----

  /** The tree that code is generated for. A cast leaves nothing behind. */
  function Lowered(e: Tree): Syntax.Expr
    decreases e
  {
    match e
    case Leaf(v) => Syntax.Literal(v)
    case Name(name) => Syntax.Variable(name)
    case Assign(name, rhs) => Syntax.Assign(name, Lowered(rhs))
    case Prefix(op, a) => Syntax.Unary(op, Lowered(a))
    case Binary(AndOp, l, r) => Syntax.And(Lowered(l), Lowered(r))
    case Binary(OrOp, l, r) => Syntax.Or(Lowered(l), Lowered(r))
    case Binary(Op(op), l, r) => Syntax.Binary(op, Lowered(l), Lowered(r))
    case Call(f, args) => Syntax.Call(Lowered(f), LoweredArgs(args))
    case Cast(a, _) => Lowered(a)
  }

  function LoweredArgs(args: Args): Syntax.Args
    decreases args
  {
    match args
    case NoArgs => Syntax.NoArgs
    case Arg(first, rest) => Syntax.Arg(Lowered(first), LoweredArgs(rest))
  }

  /** What the parser of expressions builds is where compiled code is right: no local is
      declared, and no loop is left, above pending operands. */
  lemma {:induction false} LoweredPlaced(e: Tree)
    ensures Codegen.Placed(Lowered(e)) && Codegen.NoLet(Lowered(e)) && Codegen.NoExit(Lowered(e))
    decreases e
  {
    match e
    case Assign(_, rhs) => LoweredPlaced(rhs);
    case Prefix(_, a) => LoweredPlaced(a);
    case Binary(_, l, r) => LoweredPlaced(l); LoweredPlaced(r);
    case Call(f, args) => LoweredPlaced(f); LoweredArgsPlaced(args);
    case Cast(a, _) => LoweredPlaced(a);
    case _ =>
  }

  lemma {:induction false} LoweredArgsPlaced(args: Args)
    ensures Codegen.PlacedArgs(LoweredArgs(args)) && Codegen.NoLetArgs(LoweredArgs(args)) && Codegen.NoExitArgs(LoweredArgs(args))
    decreases args
  {
    if args.Arg? {
      LoweredPlaced(args.first);
      LoweredArgsPlaced(args.rest);
    }
  }
}
