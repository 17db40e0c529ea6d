/** The parser itself: it advances over tokens, climbs precedences in a loop, and is proved
    to build the trees that module Precedence gives. */
module Climber {
  import opened Values
  import opened Types
  import opened Precedence

  datatype Reply<+T> = Built(value: T) | SyntaxError | AtBlock

  class Parser {
    const tokens: seq<Token>
    /** How many tokens have become current; the previous one is before the current one. */
    var position: nat

    constructor (tokens: seq<Token>)
      ensures this.tokens == tokens && position == 0
    {
      this.tokens, position := tokens, 0;
    }

    predicate Valid()
      reads this
    {
      position <= |tokens|
    }

    /** The current token and all after it. */
    function Rest(): seq<Token>
      requires Valid()
      reads this
    {
      tokens[position..]
    }

    function Current(): (kind: TokenType)
      requires Valid()
      reads this
      ensures kind == Kind(Rest())
    {
      if position < |tokens| then tokens[position].kind else END_OF_FILE
    }

    /** The method built what the specification says, and went as far. */
    ghost predicate Agrees<T>(r: Reply<T>, o: Parse<T>)
      reads this
    {
      match o
      case Got(value, rest) => r == Built(value) && Valid() && Rest() == rest
      case Rejected => r == SyntaxError
      case BlockAhead => r == AtBlock
    }

    method Advance() returns (previous: Token)
      requires Valid() && position < |tokens|
      modifies this
      ensures Valid() && position == old(position) + 1 && old(Rest()) == [previous] + Rest() && Rest() == old(Rest())[1..]
    {
      previous := tokens[position];
      position := position + 1;
    }

    method Match(kind: TokenType) returns (matched: bool)
      requires Valid() && kind != END_OF_FILE
      modifies this
      ensures Valid() && position >= old(position) && matched == (old(Current()) == kind)
      ensures Rest() == if matched then old(Rest())[1..] else old(Rest())
      ensures matched ==> old(Rest()) != []
    {
      matched := Current() == kind;
      if matched { var _ := Advance(); }
    }

    // ----- types -----

    method ParseTypeName() returns (r: Reply<TypeInfo>)
      requires Valid()
      modifies this
      ensures Valid() && Agrees(r, ParseType(old(Rest())))
      decreases |tokens| - position, 0
    {
      hide ParseFunctionType;
      if Current() == FN_TYPE {
        var _ := Advance();
        r := FunctionTypeName();
        return;
      }
      if !NamedType(Current()).Some? {
        return SyntaxError;
      }
      var previous := Advance();
      return Built(NamedType(previous.kind).value);
    }

    method FunctionTypeName() returns (r: Reply<TypeInfo>)
      requires Valid()
      modifies this
      ensures Valid() && Agrees(r, ParseFunctionType(old(Rest())))
      decreases |tokens| - position, 3
    {
      hide ParseTypeSets;
      hide ParseReturnType;
      ghost var ts := Rest();
      var ok := Match(LEFT_CHEVRON);
      if !ok { return SyntaxError; }
      ok := Match(LEFT_CHEVRON);
      if !ok { return SyntaxError; }
      assert Rest() == ts[2..];
      var params := ParseTypeSetList();
      if !params.Built? { return SyntaxError; }
      r := ReturnTypeName(params.value);
    }

    method ReturnTypeName(params: seq<TypeSet>) returns (r: Reply<TypeInfo>)
      requires Valid()
      modifies this
      ensures Valid() && Agrees(r, ParseReturnType(params, old(Rest())))
      decreases |tokens| - position, 3
    {
      hide ParseTypeSet;
      var ok := Match(COMMA);
      if !ok { return SyntaxError; }
      var ret := ParseUnion();
      if !ret.Built? { return SyntaxError; }
      ok := Match(RIGHT_CHEVRON);
      return if ok then Built(FunctionType(params, ret.value)) else SyntaxError;
    }

    method ParseUnion() returns (r: Reply<TypeSet>)
      requires Valid()
      modifies this
      ensures Valid() && Agrees(r, ParseTypeSet(old(Rest()), []))
      decreases |tokens| - position, 1
    {
      hide ParseType;
      hide Added;
      ghost var spec := ParseTypeSet(Rest(), []);
      var types: seq<TypeInfo> := [];
      var more := true;
      while more
        invariant Valid() && position >= old(position)
        invariant more ==> spec == ParseTypeSet(Rest(), types)
        invariant !more ==> spec == Got(TypeSet(types), Rest())
        decreases more, |tokens| - position
      {
        ghost var ts := Rest();
        var t := ParseTypeName();
        if !t.Built? { return SyntaxError; }
        types := Added(types, t.value);
        more := Match(OR);
      }
      return Built(TypeSet(types));
    }

    method ParseTypeSetList() returns (r: Reply<seq<TypeSet>>)
      requires Valid()
      modifies this
      ensures Valid() && Agrees(r, ParseTypeSets(old(Rest())))
      decreases |tokens| - position, 2
    {
      hide ParseTypeSet;
      hide ParseTypeSets;
      hide Prepended;
      ghost var spec := ParseTypeSets(Rest());
      var result: seq<TypeSet> := [];
      var more := true;
      NothingPrepended(spec);
      while more && Current() != RIGHT_CHEVRON
        invariant Valid() && position >= old(position)
        invariant more ==> spec == Prepended(result, ParseTypeSets(Rest()))
        invariant !more ==> spec == if Current() == RIGHT_CHEVRON then Got(result, Rest()[1..]) else Rejected
        decreases more, |tokens| - position
      {
        ghost var ts := Rest();
        ListGoesOn(result, ts);
        var s := ParseUnion();
        if !s.Built? {
          return SyntaxError;
        }
        result := result + [s.value];
        more := Match(COMMA);
      }
      ListEnds(result, Rest());
      var ok := Match(RIGHT_CHEVRON);
      return if ok then Built(result) else SyntaxError;
    }

    static lemma NothingPrepended(r: Parse<seq<TypeSet>>)
      ensures Prepended([], r) == r
    {
      assert r.Got? ==> [] + r.value == r.value;
    }

    static lemma ListEnds(before: seq<TypeSet>, ts: seq<Token>)
      ensures Kind(ts) == RIGHT_CHEVRON ==> Prepended(before, ParseTypeSets(ts)) == Got(before, ts[1..])
    {
      assert before + [] == before;
    }

    /** One more member of the list. */
    static lemma ListGoesOn(before: seq<TypeSet>, ts: seq<Token>)
      requires Kind(ts) != RIGHT_CHEVRON
      ensures
        var s := ParseTypeSet(ts, []);
        Prepended(before, ParseTypeSets(ts)) ==
          if !s.Got? then Rejected
          else if Kind(s.rest) == COMMA then Prepended(before + [s.value], ParseTypeSets(s.rest[1..]))
          else if Kind(s.rest) == RIGHT_CHEVRON then Got(before + [s.value], s.rest[1..])
          else Rejected
    {
      hide ParseTypeSet;
      var s := ParseTypeSet(ts, []);
      if s.Got? && Kind(s.rest) == COMMA && ParseTypeSets(s.rest[1..]).Got? {
        assert before + ([s.value] + ParseTypeSets(s.rest[1..]).value) == before + [s.value] + ParseTypeSets(s.rest[1..]).value;
      }
    }

    static ghost function Prepended(before: seq<TypeSet>, r: Parse<seq<TypeSet>>): Parse<seq<TypeSet>> {
      if r.Got? then Got(before + r.value, r.rest) else r
    }

    // ----- expressions -----

    method ParsePrecedence(p: nat) returns (r: Reply<Tree>)
      requires Valid() && p > P_NONE
      modifies this
      ensures Valid() && Agrees(r, ParseAt(p, old(Rest())))
      decreases |tokens| - position, 3
    {
      hide ParsePrefix;
      hide ParseInfix;
      var canAssign := p <= P_ASSIGNMENT;
      r := PrefixExpression(canAssign);
      if !r.Built? { return; }
      ghost var spec := Continue(p, r.value, Rest());
      while p <= GetRule(Current()).precedence
        invariant Valid() && position > old(position) && r.Built?
        invariant spec == Continue(p, r.value, Rest())
        decreases |tokens| - position
      {
        InfixRuleExists(Current(), p);
        r := InfixExpression(r.value);
        if !r.Built? { return; }
      }
      var atEqual := Current() == EQUAL_SIGN;
      if canAssign && atEqual { return SyntaxError; }
    }

    method PrefixExpression(canAssign: bool) returns (r: Reply<Tree>)
      requires Valid()
      modifies this
      ensures Valid() && Agrees(r, ParsePrefix(canAssign, old(Rest())))
      ensures r.Built? ==> position > old(position)
      decreases |tokens| - position, 2
    {
      hide ParseAt;
      ghost var ts := Rest();
      match GetRule(Current()).prefix
      case None => return SyntaxError;
      case Some(BlockRule) => return AtBlock;
      case Some(LiteralRule) =>
        var previous := Advance();
        return Built(Leaf(LiteralOf(previous)));
      case Some(GroupingRule) =>
        var _ := Advance();
        r := ParsePrecedence(P_ASSIGNMENT);
        if !r.Built? { return; }
        var ok := Match(RIGHT_PAREN);
        if !ok { return SyntaxError; }
      case Some(UnaryRule) =>
        var previous := Advance();
        r := ParsePrecedence(P_UNARY);
        if r.Built? { return Built(Prefix(UnaryOf(previous.kind), r.value)); }
      case Some(VariableRule) =>
        var previous := Advance();
        if canAssign {
          var assigns := Match(EQUAL_SIGN);
          if assigns {
            assert Rest() == ts[2..];
            r := ParsePrecedence(P_ASSIGNMENT);
            if r.Built? { return Built(Assign(previous.name, r.value)); }
            return;
          }
        }
        return Built(Name(previous.name));
    }

    method InfixExpression(lhs: Tree) returns (r: Reply<Tree>)
      requires Valid() && GetRule(Current()).infix.Some?
      modifies this
      ensures Valid() && Agrees(r, ParseInfix(lhs, old(Rest())))
      ensures r.Built? ==> position > old(position)
      decreases |tokens| - position, 0
    {
      hide ParseAt;
      hide ParseArgs;
      hide ParseTypeSet;
      hide ParseRight;
      var kind := Current();
      var _ := Advance();
      match GetRule(kind).infix.value
      case BinaryRule => r := RightOperand(lhs, Op(BinaryOf(kind)));
      case AndRule => r := RightOperand(lhs, AndOp);
      case OrRule => r := RightOperand(lhs, OrOp);
      case CallRule =>
        var args := ArgumentList();
        match args {
          case Built(a) => return Built(Call(lhs, a));
          case SyntaxError => return SyntaxError;
          case AtBlock => return AtBlock;
        }
      case AsRule =>
        var to := ParseUnion();
        return if to.Built? then Built(Cast(lhs, to.value)) else SyntaxError;
    }

    method RightOperand(lhs: Tree, op: Infix) returns (r: Reply<Tree>)
      requires Valid()
      modifies this
      ensures Valid() && Agrees(r, ParseRight(lhs, op, old(Rest())))
      decreases |tokens| - position, 4
    {
      hide ParseAt;
      r := ParsePrecedence(RightLevel(op));
      if r.Built? { return Built(Binary(op, lhs, r.value)); }
    }

    /** Arguments until there is no comma after one. */
    method ArgumentList() returns (r: Reply<Args>)
      requires Valid()
      modifies this
      ensures Valid() && Agrees(r, ParseArgs(old(Rest()), 0))
      decreases |tokens| - position, 4
    {
      hide ParseAt;
      hide ParseArgs;
      hide Listed;
      hide After;
      ghost var spec := ParseArgs(Rest(), 0);
      ArgumentsEnd([], Rest());
      var result: seq<Tree> := [];
      var more := true;
      while more && Current() != RIGHT_PAREN
        invariant Valid() && position >= old(position) && |result| <= MAX_ARGUMENTS
        invariant more ==> spec == After(result, ParseArgs(Rest(), |result|))
        invariant !more ==> spec == if Current() == RIGHT_PAREN then Got(Listed(result, NoArgs), Rest()[1..]) else Rejected
        decreases more, |tokens| - position
      {
        ghost var ts := Rest();
        ArgumentsStop(result, ts);
        var e := ParsePrecedence(P_ASSIGNMENT);
        match e {
          case SyntaxError => return SyntaxError;
          case AtBlock => return AtBlock;
          case Built(_) =>
        }
        if |result| == MAX_ARGUMENTS { return SyntaxError; }
        ArgumentsGoOn(result, ts);
        result := result + [e.value];
        more := Match(COMMA);
      }
      ArgumentsEnd(result, Rest());
      var ok := Match(RIGHT_PAREN);
      return if ok then Built(Listed(result, NoArgs)) else SyntaxError;
    }

    static function Listed(trees: seq<Tree>, rest: Args): Args
      decreases |trees|
    {
      if trees == [] then rest else Listed(trees[..|trees| - 1], Arg(trees[|trees| - 1], rest))
    }

    static lemma ListedMore(trees: seq<Tree>, e: Tree)
      ensures forall rest: Args :: Listed(trees + [e], rest) == Listed(trees, Arg(e, rest))
    {
      assert (trees + [e])[..|trees|] == trees;
    }

    /** Nothing before, or nothing left. */
    static lemma ArgumentsEnd(before: seq<Tree>, ts: seq<Token>)
      ensures Kind(ts) == RIGHT_PAREN ==> After(before, ParseArgs(ts, |before|)) == Got(Listed(before, NoArgs), ts[1..])
      ensures before == [] ==> After(before, ParseArgs(ts, 0)) == ParseArgs(ts, 0)
    {
      hide ParseAt;
    }

    /** No more arguments. */
    static lemma ArgumentsStop(before: seq<Tree>, ts: seq<Token>)
      requires Kind(ts) != RIGHT_PAREN
      ensures var e := ParseAt(P_ASSIGNMENT, ts); e == Rejected ==> After(before, ParseArgs(ts, |before|)) == Rejected
      ensures var e := ParseAt(P_ASSIGNMENT, ts); e == BlockAhead ==> After(before, ParseArgs(ts, |before|)) == BlockAhead
      ensures var e := ParseAt(P_ASSIGNMENT, ts); e.Got? && |before| == MAX_ARGUMENTS ==> After(before, ParseArgs(ts, |before|)) == Rejected
    {
      hide ParseAt;
      hide Listed;
    }

    /** One more argument. */
    static lemma ArgumentsGoOn(before: seq<Tree>, ts: seq<Token>)
      requires Kind(ts) != RIGHT_PAREN && ParseAt(P_ASSIGNMENT, ts).Got? && |before| < MAX_ARGUMENTS
      ensures
        var e := ParseAt(P_ASSIGNMENT, ts);
        After(before, ParseArgs(ts, |before|)) ==
          if Kind(e.rest) == COMMA then After(before + [e.value], ParseArgs(e.rest[1..], |before| + 1))
          else if Kind(e.rest) == RIGHT_PAREN then Got(Listed(before + [e.value], NoArgs), e.rest[1..])
          else Rejected
    {
      hide ParseAt;
      ListedMore(before, ParseAt(P_ASSIGNMENT, ts).value);
      hide Listed;
    }

    static ghost function After(before: seq<Tree>, r: Parse<Args>): Parse<Args> {
      if r.Got? then Got(Listed(before, r.value), r.rest) else r
    }

    method Expression() returns (r: Reply<Tree>)
      requires Valid()
      modifies this
      ensures Valid() && Agrees(r, ParseAt(P_ASSIGNMENT, old(Rest())))
      decreases |tokens| - position, 4
    {
      r := ParsePrecedence(P_ASSIGNMENT);
    }
  }
}
