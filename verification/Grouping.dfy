/** How expressions group: what the parser makes of a text, with the operators and their
    classes written out. */
module Grouping {
  import opened Bytecode
  import opened Values
  import opened Types
  import opened Precedence

  // ----- the operators -----

  /** From weak to strong: or, and, equality, comparison, sums, products. No other token
      stands between two operands. */
  function Class(k: TokenType): nat {
    match k
    case OR => 1
    case AND => 2
    case EQUAL_EQUAL | BANG_EQUAL => 3
    case LEFT_CHEVRON | LESS_EQUAL_SIGN | RIGHT_CHEVRON | GREATER_EQUAL_SIGN => 4
    case PLUS | MINUS => 5
    case STAR | SLASH => 6
    case _ => 0
  }

  function OperatorOf(k: TokenType): Infix {
    match k
    case OR => OrOp case AND => AndOp
    case EQUAL_EQUAL => Op(Eq) case BANG_EQUAL => Op(Ne)
    case LEFT_CHEVRON => Op(Lt) case LESS_EQUAL_SIGN => Op(Le)
    case RIGHT_CHEVRON => Op(Gt) case GREATER_EQUAL_SIGN => Op(Ge)
    case PLUS => Op(Add) case MINUS => Op(Sub) case STAR => Op(Mul)
    case _ => Op(Div)
  }

  /** `and` and `or` group to the right. */
  predicate ToTheRight(k: TokenType) { k == OR || k == AND }

  /** The rule table has these classes, `as` above them, and calls above all. */
  lemma Levels(k: TokenType)
    ensures Class(k) > 0 ==> GetRule(k).precedence == Class(k) + 1 && GetRule(k).infix.Some?
    ensures GetRule(AS).precedence == 8 && GetRule(LEFT_PAREN).precedence == 10
    ensures Class(k) == 0 && k !in {AS, LEFT_PAREN} ==> GetRule(k).precedence == 0
  {
  }

  lemma OperatorLevels(k: TokenType)
    requires Class(k) > 0
    ensures RightLevel(OperatorOf(k)) == if ToTheRight(k) then Class(k) + 1 else Class(k) + 2
  {
  }

  lemma OperatorRead(lhs: Tree, ts: seq<Token>)
    requires Class(Kind(ts)) > 0 && GetRule(Kind(ts)).infix.Some?
    ensures ParseInfix(lhs, ts) == ParseRight(lhs, OperatorOf(Kind(ts)), ts[1..])
  {
    hide ParseRight;
    hide ParseArgs;
    hide ParseTypeSet;
  }

  // ----- operands -----

  /** What may follow an operand that is not to be called or assigned to. */
  predicate Plainly(rest: seq<Token>) { Kind(rest) !in {LEFT_PAREN, EQUAL_SIGN} }

  /** The text is read as this tree whatever operator follows. */
  ghost predicate Operand(ts: seq<Token>, e: Tree) {
    forall p: nat, rest: seq<Token> :: 1 <= p <= 9 && Plainly(rest) ==> ParseAt(p, ts + rest) == NoTarget(p, Continue(p, e, rest))
  }

  /** The same, and it may be called. */
  ghost predicate Primary(ts: seq<Token>, e: Tree) {
    forall p: nat, rest: seq<Token> :: 1 <= p <= 10 && Kind(rest) != EQUAL_SIGN ==> ParseAt(p, ts + rest) == NoTarget(p, Continue(p, e, rest))
  }

  /** The text of a whole expression, wherever no operator follows it. */
  ghost predicate Whole(ts: seq<Token>, e: Tree) {
    forall rest: seq<Token> :: Ends(rest) ==> ParseAt(P_ASSIGNMENT, ts + rest) == Got(e, rest)
  }

  predicate Ends(rest: seq<Token>) { Class(Kind(rest)) == 0 && Kind(rest) !in {AS, LEFT_PAREN, EQUAL_SIGN} }

  /** Literals and names. */
  predicate IsLeaf(t: Token) {
    t.kind in {IDENTIFIER, INTEGER_LITERAL, FLOAT_LITERAL, STRING_LITERAL, TokenType.NIL, TokenType.TRUE, TokenType.FALSE}
  }

  function LeafOf(t: Token): Tree {
    match t.kind
    case IDENTIFIER => Name(t.name)
    case NIL => Leaf(Value.Nil) case TRUE => Leaf(Bool(true)) case FALSE => Leaf(Bool(false))
    case _ => Leaf(t.value)
  }

  lemma LeafPrimary(t: Token)
    requires IsLeaf(t)
    ensures Primary([t], LeafOf(t))
  {
    forall p: nat, rest: seq<Token> | 1 <= p <= 10 && Kind(rest) != EQUAL_SIGN
      ensures ParseAt(p, [t] + rest) == NoTarget(p, Continue(p, LeafOf(t), rest))
    {
      LeafRead(p, [t] + rest);
      assert ([t] + rest)[1..] == rest;
    }
  }

  lemma LeafRead(p: nat, ts: seq<Token>)
    requires p > 0 && ts != [] && IsLeaf(ts[0]) && Kind(ts[1..]) != EQUAL_SIGN
    ensures ParseAt(p, ts) == NoTarget(p, Continue(p, LeafOf(ts[0]), ts[1..]))
  {
    hide Continue;
    hide NoTarget;
    LeafPrefix(p <= P_ASSIGNMENT, ts);
    hide ParsePrefix;
  }

  lemma LeafPrefix(canAssign: bool, ts: seq<Token>)
    requires ts != [] && IsLeaf(ts[0]) && (canAssign ==> Kind(ts[1..]) != EQUAL_SIGN)
    ensures ParsePrefix(canAssign, ts) == Got(LeafOf(ts[0]), ts[1..])
  {
    hide ParseAt;
    hide Continue;
  }

  lemma PrimaryOperand(ts: seq<Token>, e: Tree)
    requires Primary(ts, e)
    ensures Operand(ts, e)
  {
    hide ParseAt;
    hide Continue;
  }

  lemma OperandWhole(ts: seq<Token>, e: Tree)
    requires Operand(ts, e)
    ensures Whole(ts, e)
  {
    forall rest: seq<Token> | Ends(rest) ensures ParseAt(P_ASSIGNMENT, ts + rest) == Got(e, rest) {
      hide ParseAt;
      Levels(Kind(rest));
    }
  }

  /** A text in parentheses is one operand. */
  lemma GroupPrimary(ts: seq<Token>, e: Tree)
    requires Whole(ts, e)
    ensures Primary([Sym(LEFT_PAREN)] + ts + [Sym(RIGHT_PAREN)], e)
  {
    var text := [Sym(LEFT_PAREN)] + ts + [Sym(RIGHT_PAREN)];
    forall p: nat, rest: seq<Token> | 1 <= p <= 10 && Kind(rest) != EQUAL_SIGN
      ensures ParseAt(p, text + rest) == NoTarget(p, Continue(p, e, rest))
    {
      var close := [Sym(RIGHT_PAREN)] + rest;
      assert (text + rest)[1..] == ts + close && close[1..] == rest;
      assert ParseAt(P_ASSIGNMENT, ts + close) == Got(e, close);
      Parenthesised(p, text + rest, e, close);
    }
  }

  lemma Parenthesised(p: nat, text: seq<Token>, e: Tree, close: seq<Token>)
    requires p > 0 && Kind(text) == LEFT_PAREN && ParseAt(P_ASSIGNMENT, text[1..]) == Got(e, close) && Kind(close) == RIGHT_PAREN
    ensures ParseAt(p, text) == NoTarget(p, Continue(p, e, close[1..]))
  {
    hide Continue;
  }

  /** A sign or a negation takes the operand after it, calls included, and nothing more. */
  lemma PrefixOperand(k: TokenType, ts: seq<Token>, e: Tree)
    requires k in {MINUS, BANG} && Operand(ts, e)
    ensures Operand([Sym(k)] + ts, Prefix(if k == BANG then Not else Neg, e))
  {
    var text, tree := [Sym(k)] + ts, Prefix(if k == BANG then Not else Neg, e);
    forall p: nat, rest: seq<Token> | 1 <= p <= 9 && Plainly(rest)
      ensures ParseAt(p, text + rest) == NoTarget(p, Continue(p, tree, rest))
    {
      assert (text + rest)[1..] == ts + rest;
      assert ParseAt(9, ts + rest) == NoTarget(9, Continue(9, e, rest));
      Levels(Kind(rest));
      Prefixed(p, text + rest, e, rest);
    }
  }

  lemma Prefixed(p: nat, text: seq<Token>, e: Tree, rest: seq<Token>)
    requires p > 0 && Kind(text) in {MINUS, BANG} && ParseAt(9, text[1..]) == Got(e, rest)
    ensures ParseAt(p, text) == NoTarget(p, Continue(p, Prefix(if Kind(text) == BANG then Not else Neg, e), rest))
  {
    hide Continue;
  }

  // ----- chains of operators -----

  /** Operands with operators between them. */
  function Chain(texts: seq<seq<Token>>, ks: seq<TokenType>): seq<Token>
    requires |texts| == |ks| + 1
    decreases |ks|
  {
    if ks == [] then texts[0] else texts[0] + [Sym(ks[0])] + Chain(texts[1..], ks[1..])
  }

  /** Where a chain comes apart: at an operator of the weakest class in it, the last one of
      them, but for `and` and `or` the first one. */
  predicate ComesApart(ks: seq<TokenType>, i: nat) {
    && i < |ks|
    && (forall j :: 0 <= j < |ks| ==> Class(ks[i]) <= Class(ks[j]))
    && (if ToTheRight(ks[i]) then forall j :: 0 <= j < i ==> Class(ks[i]) < Class(ks[j])
        else forall j :: i < j < |ks| ==> Class(ks[i]) < Class(ks[j]))
  }

  lemma SplitStep(ks: seq<TokenType>, i: nat)
    requires |ks| > 1 && ComesApart(ks[..|ks| - 1], i)
    ensures
      var last := |ks| - 1;
      ComesApart(ks, if Class(ks[last]) < Class(ks[i]) || (Class(ks[last]) == Class(ks[i]) && !ToTheRight(ks[i])) then last else i)
  {
    var last := |ks| - 1;
    SameSide(ks[last], ks[i]);
    hide Class;
    hide ToTheRight;
    assert forall j :: 0 <= j < last ==> ks[..last][j] == ks[j];
  }

  function SplitAt(ks: seq<TokenType>): (i: nat)
    requires ks != []
    ensures ComesApart(ks, i)
    decreases |ks|
  {
    if |ks| == 1 then 0
    else
      var last := |ks| - 1;
      var i := SplitAt(ks[..last]);
      SplitStep(ks, i);
      if Class(ks[last]) < Class(ks[i]) || (Class(ks[last]) == Class(ks[i]) && !ToTheRight(ks[i])) then last else i
  }

  lemma SplitIsUnique(ks: seq<TokenType>, i: nat, j: nat)
    requires ComesApart(ks, i) && ComesApart(ks, j)
    ensures i == j
  {
    assert Class(ks[i]) == Class(ks[j]);
    SameSide(ks[i], ks[j]);
  }

  function Grouped(xs: seq<Tree>, ks: seq<TokenType>): Tree
    requires |xs| == |ks| + 1
    decreases |ks|
  {
    if ks == [] then xs[0]
    else
      var i := SplitAt(ks);
      Binary(OperatorOf(ks[i]), Grouped(xs[..i + 1], ks[..i]), Grouped(xs[i + 1..], ks[i + 1..]))
  }

  /** How many operators from the start of the chain bind at least as strongly as `p`. */
  function Run(ks: seq<TokenType>, p: nat): (m: nat)
    ensures m <= |ks| && (forall j :: 0 <= j < m ==> Class(ks[j]) + 1 >= p) && (m < |ks| ==> Class(ks[m]) + 1 < p)
    decreases |ks|
  {
    if ks == [] || Class(ks[0]) + 1 < p then 0 else 1 + Run(ks[1..], p)
  }

  /** The text from the operator at `m` on. */
  function From(texts: seq<seq<Token>>, ks: seq<TokenType>, m: nat, rest: seq<Token>): seq<Token>
    requires |texts| == |ks| + 1 && m <= |ks|
  {
    if m == |ks| then rest else [Sym(ks[m])] + (Chain(texts[m + 1..], ks[m + 1..]) + rest)
  }

  ghost predicate Operands(texts: seq<seq<Token>>, xs: seq<Tree>, ks: seq<TokenType>) {
    && |texts| == |xs| == |ks| + 1
    && (forall i :: 0 <= i < |xs| ==> Operand(texts[i], xs[i]))
    && (forall k <- ks :: Class(k) > 0)
  }

  lemma OperandsFrom(texts: seq<seq<Token>>, xs: seq<Tree>, ks: seq<TokenType>, j: nat)
    requires Operands(texts, xs, ks) && j <= |ks|
    ensures Operands(texts[j..], xs[j..], ks[j..])
  {
    hide Operand;
  }

  /** The chain's first operand, read at any level. */
  lemma FirstOperand(p: nat, texts: seq<seq<Token>>, xs: seq<Tree>, ks: seq<TokenType>, rest: seq<Token>)
    requires 1 <= p <= 9 && Operands(texts, xs, ks) && Ends(rest)
    ensures ParseAt(p, Chain(texts, ks) + rest) == NoTarget(p, Continue(p, xs[0], From(texts, ks, 0, rest)))
  {
    hide ParseAt;
    hide Continue;
    var more := From(texts, ks, 0, rest);
    assert Chain(texts, ks) + rest == texts[0] + more;
    assert Operand(texts[0], xs[0]);
    assert Plainly(more) by { if ks != [] { assert ks[0] in ks; } }
  }

  /** One more operator, with its right operand. */
  lemma GoesOn(p: nat, lhs: Tree, k: TokenType, ts: seq<Token>, e: Tree, rest: seq<Token>)
    requires Class(k) > 0 && 1 <= p <= Class(k) + 1
    requires ParseAt(if ToTheRight(k) then Class(k) + 1 else Class(k) + 2, ts) == Got(e, rest)
    ensures Continue(p, lhs, [Sym(k)] + ts) == Continue(p, Binary(OperatorOf(k), lhs, e), rest)
  {
    Levels(k);
    OperatorLevels(k);
    var text := [Sym(k)] + ts;
    assert text[1..] == ts && Kind(text) == k;
    OperatorRead(lhs, text);
    hide ParseAt;
    hide OperatorOf;
    assert ParseInfix(lhs, text) == Got(Binary(OperatorOf(k), lhs, e), rest);
    hide ParseInfix;
  }

  lemma StopsAt(p: nat, lhs: Tree, ts: seq<Token>)
    requires p > 0 && Kind(ts) !in {AS, LEFT_PAREN} && (Class(Kind(ts)) == 0 || Class(Kind(ts)) + 1 < p)
    ensures Continue(p, lhs, ts) == Got(lhs, ts)
  {
    Levels(Kind(ts));
  }

  /** Reading a chain at a level takes its operators down to that level, and groups them. */
  lemma {:induction false} Climbs(p: nat, texts: seq<seq<Token>>, xs: seq<Tree>, ks: seq<TokenType>, rest: seq<Token>)
    requires 1 <= p <= 8 && Operands(texts, xs, ks) && Ends(rest)
    ensures
      var m := Run(ks, p);
      ParseAt(p, Chain(texts, ks) + rest) == Got(Grouped(xs[..m + 1], ks[..m]), From(texts, ks, m, rest))
    decreases |ks|, 1
  {
    hide ParseAt;
    hide Continue;
    hide Operand;
    hide Class;
    hide Grouped;
    OperandsParts(texts, xs, ks);
    FirstOperand(p, texts, xs, ks, rest);
    ClimbsOn(p, texts, xs, ks, rest, 0);
    assert Grouped(xs[..1], ks[..0]) == xs[0] by { OneOperand(xs, ks); }
    hide Operands;
  }

  lemma OneOperand(xs: seq<Tree>, ks: seq<TokenType>)
    requires |xs| == |ks| + 1
    ensures Grouped(xs[..1], ks[..0]) == xs[0]
  {
  }

  /** The operators read so far bind more strongly than the next one, or as strongly if they
      group to the left. */
  predicate Settled(ks: seq<TokenType>, j: nat) {
    j < |ks| ==> forall i :: 0 <= i < j ==> Class(ks[i]) > Class(ks[j]) || (Class(ks[i]) == Class(ks[j]) && !ToTheRight(ks[j]))
  }

  lemma {:induction false} ClimbsOn(p: nat, texts: seq<seq<Token>>, xs: seq<Tree>, ks: seq<TokenType>, rest: seq<Token>, j: nat)
    requires 1 <= p <= 8 && Operands(texts, xs, ks) && Ends(rest) && j <= Run(ks, p) && Settled(ks, j)
    ensures
      var m := Run(ks, p);
      Continue(p, Grouped(xs[..j + 1], ks[..j]), From(texts, ks, j, rest)) == Got(Grouped(xs[..m + 1], ks[..m]), From(texts, ks, m, rest))
    decreases |ks| - j, 0
  {
    hide ParseAt;
    hide Continue;
    hide Operands;
    hide Grouped;
    hide Class;
    hide ToTheRight;
    hide Settled;
    hide ComesApart;
    var m := Run(ks, p);
    OperandsParts(texts, xs, ks);
    var lhs := Grouped(xs[..j + 1], ks[..j]);
    if j == m {
      StopsAt(p, lhs, From(texts, ks, j, rest));
    } else {
      var k, more := ks[j], ks[j + 1..];
      var r := if ToTheRight(k) then Class(k) + 1 else Class(k) + 2;
      OperandsFrom(texts, xs, ks, j + 1);
      Highest(k);
      Climbs(r, texts[j + 1..], xs[j + 1..], more, rest);
      var next := j + 1 + Run(more, r);
      NextOperator(p, ks, j, next);
      StepOn(p, texts, xs, ks, rest, j, next, k, next - j - 1);
      ClimbsOn(p, texts, xs, ks, rest, next);
    }
  }

  /** One operator and its right operand, which reaches to the operator at `next`. */
  lemma StepOn(p: nat, texts: seq<seq<Token>>, xs: seq<Tree>, ks: seq<TokenType>, rest: seq<Token>, j: nat, next: nat, k: TokenType, n: nat)
    requires |texts| == |xs| == |ks| + 1 && j < next <= |ks| && k == ks[j] && n == next - j - 1
    requires Class(k) > 0 && 1 <= p <= Class(k) + 1 && ComesApart(ks[..next], j)
    requires
      ParseAt(if ToTheRight(k) then Class(k) + 1 else Class(k) + 2, Chain(texts[j + 1..], ks[j + 1..]) + rest)
      == Got(Grouped(xs[j + 1..][..n + 1], ks[j + 1..][..n]), From(texts[j + 1..], ks[j + 1..], n, rest))
    ensures Continue(p, Grouped(xs[..j + 1], ks[..j]), From(texts, ks, j, rest))
         == Continue(p, Grouped(xs[..next + 1], ks[..next]), From(texts, ks, next, rest))
  {
    hide ParseAt;
    hide Continue;
    hide Grouped;
    hide Class;
    hide ToTheRight;
    hide ComesApart;
    assert xs[j + 1..][..n + 1] == xs[j + 1..next + 1] && ks[j + 1..][..n] == ks[j + 1..next];
    FromLater(texts, ks, j + 1, n, rest);
    GoesOn(p, Grouped(xs[..j + 1], ks[..j]), k, Chain(texts[j + 1..], ks[j + 1..]) + rest, Grouped(xs[j + 1..next + 1], ks[j + 1..next]), From(texts, ks, next, rest));
    Regrouped(xs, ks, j, next);
  }

  lemma OperandsParts(texts: seq<seq<Token>>, xs: seq<Tree>, ks: seq<TokenType>)
    requires Operands(texts, xs, ks)
    ensures |texts| == |xs| == |ks| + 1 && forall i :: 0 <= i < |ks| ==> Class(ks[i]) > 0 && ks[i] !in {AS, LEFT_PAREN, EQUAL_SIGN}
  {
    hide Operand;
    forall i | 0 <= i < |ks| ensures Class(ks[i]) > 0 { assert ks[i] in ks; }
  }

  lemma Highest(k: TokenType)
    ensures Class(k) + 2 <= 8
  {
  }

  lemma FromLater(texts: seq<seq<Token>>, ks: seq<TokenType>, i: nat, n: nat, rest: seq<Token>)
    requires |texts| == |ks| + 1 && i + n <= |ks|
    ensures From(texts[i..], ks[i..], n, rest) == From(texts, ks, i + n, rest)
  {
    if i + n < |ks| {
      assert texts[i..][n + 1..] == texts[i + n + 1..] && ks[i..][n + 1..] == ks[i + n + 1..];
    }
  }

  /** After the operator at `j` and its right operand. */
  lemma NextOperator(p: nat, ks: seq<TokenType>, j: nat, next: nat)
    requires j < Run(ks, p) && Settled(ks, j)
    requires next == j + 1 + Run(ks[j + 1..], if ToTheRight(ks[j]) then Class(ks[j]) + 1 else Class(ks[j]) + 2)
    ensures next <= Run(ks, p) && Settled(ks, next) && ComesApart(ks[..next], j)
  {
    hide Class;
    hide ToTheRight;
    hide Settled;
    hide ComesApart;
    var k, more := ks[j], ks[j + 1..];
    var r := if ToTheRight(k) then Class(k) + 1 else Class(k) + 2;
    forall i | j < i < next ensures Class(ks[i]) + 1 >= r { assert more[i - j - 1] == ks[i]; }
    if next < |ks| { assert more[next - j - 1] == ks[next]; }
    assert next <= Run(ks, p);
    hide Run;
    NextSettled(ks, j, next, r);
    NextApart(ks, j, next, r);
  }

  lemma NextSettled(ks: seq<TokenType>, j: nat, next: nat, r: nat)
    requires j < next <= |ks| && Settled(ks, j) && r == if ToTheRight(ks[j]) then Class(ks[j]) + 1 else Class(ks[j]) + 2
    requires forall i :: j < i < next ==> Class(ks[i]) + 1 >= r
    requires next < |ks| ==> Class(ks[next]) + 1 < r
    ensures Settled(ks, next)
  {
    hide Class;
    hide ToTheRight;
    if next < |ks| { SameSide(ks[j], ks[next]); }
  }

  lemma NextApart(ks: seq<TokenType>, j: nat, next: nat, r: nat)
    requires j < next <= |ks| && Settled(ks, j) && r == if ToTheRight(ks[j]) then Class(ks[j]) + 1 else Class(ks[j]) + 2
    requires forall i :: j < i < next ==> Class(ks[i]) + 1 >= r
    ensures ComesApart(ks[..next], j)
  {
    hide Class;
    hide ToTheRight;
    var ls := ks[..next];
    assert forall i :: 0 <= i < next ==> ls[i] == ks[i];
  }

  lemma Regrouped(xs: seq<Tree>, ks: seq<TokenType>, j: nat, next: nat)
    requires |xs| == |ks| + 1 && j < next <= |ks| && ComesApart(ks[..next], j)
    ensures Grouped(xs[..next + 1], ks[..next]) == Binary(OperatorOf(ks[j]), Grouped(xs[..j + 1], ks[..j]), Grouped(xs[j + 1..next + 1], ks[j + 1..next]))
  {
    var ys, ls := xs[..next + 1], ks[..next];
    SplitIsUnique(ls, SplitAt(ls), j);
    assert ys[..j + 1] == xs[..j + 1] && ls[..j] == ks[..j];
    assert ys[j + 1..] == xs[j + 1..next + 1] && ls[j + 1..] == ks[j + 1..next];
  }

  /** Any number of operands and operators group by the classes: at the weakest operator
      first, the last one of its class, but the first `and` or `or`. */
  lemma GroupsByClass(texts: seq<seq<Token>>, xs: seq<Tree>, ks: seq<TokenType>)
    requires Operands(texts, xs, ks)
    ensures Whole(Chain(texts, ks), Grouped(xs, ks))
  {
    forall rest: seq<Token> | Ends(rest) ensures ParseAt(P_ASSIGNMENT, Chain(texts, ks) + rest) == Got(Grouped(xs, ks), rest) {
      hide ParseAt;
      hide Operand;
      Climbs(1, texts, xs, ks, rest);
      var m := Run(ks, 1);
      assert xs[..m + 1] == xs && ks[..m] == ks;
    }
  }

  /** Two operators: the second one goes first if and only if it is of a stronger class, or
      of the same class and that is `and` or `or`. */
  lemma TwoOperators(a: seq<Token>, x: Tree, k: TokenType, b: seq<Token>, y: Tree, l: TokenType, c: seq<Token>, z: Tree)
    requires Operand(a, x) && Operand(b, y) && Operand(c, z) && Class(k) > 0 && Class(l) > 0
    ensures
      var second := Class(l) > Class(k) || (Class(l) == Class(k) && ToTheRight(k));
      Whole(a + [Sym(k)] + (b + [Sym(l)] + c),
            if second then Binary(OperatorOf(k), x, Binary(OperatorOf(l), y, z))
            else Binary(OperatorOf(l), Binary(OperatorOf(k), x, y), z))
  {
    hide Operand;
    hide Whole;
    hide Class;
    hide ToTheRight;
    hide SplitAt;
    var texts, xs, ks := [a, b, c], [x, y, z], [k, l];
    GroupsByClass(texts, xs, ks);
    TwoTexts(a, k, b, l, c);
    var second := Class(l) > Class(k) || (Class(l) == Class(k) && ToTheRight(k));
    var i := if second then 0 else 1;
    assert Class(l) == Class(k) ==> ToTheRight(l) == ToTheRight(k) by { SameSide(k, l); }
    assert ComesApart(ks, i);
    SplitIsUnique(ks, SplitAt(ks), i);
    OneOperator(y, l, z);
    OneOperator(x, k, y);
    if second {
      assert xs[..1] == [x] && xs[1..] == [y, z] && ks[..0] == [] && ks[1..] == [l];
    } else {
      assert xs[..2] == [x, y] && xs[2..] == [z] && ks[..1] == [k] && ks[2..] == [];
    }
  }

  lemma SameSide(k: TokenType, l: TokenType)
    ensures Class(l) == Class(k) ==> ToTheRight(l) == ToTheRight(k)
  {
  }

  lemma TwoTexts(a: seq<Token>, k: TokenType, b: seq<Token>, l: TokenType, c: seq<Token>)
    ensures Chain([a, b, c], [k, l]) == a + [Sym(k)] + (b + [Sym(l)] + c)
  {
    assert [a, b, c][1..] == [b, c] && [k, l][1..] == [l] && [b, c][1..] == [c] && [l][1..] == [];
    assert Chain([b, c], [l]) == b + [Sym(l)] + c;
  }

  lemma OneOperator(x: Tree, k: TokenType, y: Tree)
    requires Class(k) > 0
    ensures Grouped([x, y], [k]) == Binary(OperatorOf(k), x, y)
  {
    hide Class;
    assert SplitAt([k]) == 0 && [x, y][..1] == [x] && [x, y][1..] == [y] && [k][..0] == [] && [k][1..] == [];
  }

  // ----- casts, calls and assignments -----

  /** The types that are one token. */
  function NamedBy(k: TokenType): Option<TypeInfo> {
    match k
    case ANY_TYPE => Some(AnyType) case NIL_TYPE => Some(NilType) case BOOL_TYPE => Some(BoolType)
    case INT_TYPE => Some(IntType) case FLOAT_TYPE => Some(FloatType)
    case CHAR_TYPE => Some(CharType) case STR_TYPE => Some(StringType)
    case _ => None
  }

  /** A cast takes the operand before it, signs included, but no operator's operands. Only an
      `or` after it is taken for the type's. */
  lemma CastGroups(p: nat, ts: seq<Token>, e: Tree, k: TokenType, rest: seq<Token>)
    requires 1 <= p <= 8 && Operand(ts, e) && NamedBy(k).Some?
    ensures Kind(rest) != OR ==>
      ParseAt(p, ts + ([Sym(AS), Sym(k)] + rest)) == NoTarget(p, Continue(p, Cast(e, TypeSet([NamedBy(k).value])), rest))
    ensures Kind(rest) == OR && Kind(rest[1..]) != FN_TYPE && NamedBy(Kind(rest[1..])).None? ==>
      ParseAt(p, ts + ([Sym(AS), Sym(k)] + rest)) == Rejected
  {
    var more := [Sym(AS), Sym(k)] + rest;
    assert ParseAt(p, ts + more) == NoTarget(p, Continue(p, e, more));
    assert more[1..] == [Sym(k)] + rest && more[1..][1..] == rest;
    CastType(more[1..]);
    CastStep(p, e, more);
  }

  lemma CastType(ts: seq<Token>)
    requires NamedBy(Kind(ts)).Some?
    ensures Kind(ts[1..]) != OR ==> ParseTypeSet(ts, []) == Got(TypeSet([NamedBy(Kind(ts)).value]), ts[1..])
    ensures Kind(ts[1..]) == OR && Kind(ts[2..]) != FN_TYPE && NamedBy(Kind(ts[2..])).None? ==> ParseTypeSet(ts, []) == Rejected
  {
    hide ParseType;
    hide Added;
    TypeByToken(ts);
    FirstMember(NamedBy(Kind(ts)).value);
    if Kind(ts[1..]) == OR {
      assert ts[1..][1..] == ts[2..];
      TypeByToken(ts[2..]);
    }
  }

  /** Each of these tokens is the type of its name, and no other token but `Fn` begins one. */
  lemma TypeByToken(ts: seq<Token>)
    ensures NamedBy(Kind(ts)).Some? ==> ParseType(ts) == Got(NamedBy(Kind(ts)).value, ts[1..])
    ensures NamedBy(Kind(ts)).None? && Kind(ts) != FN_TYPE ==> ParseType(ts) == Rejected
  {
    hide ParseFunctionType;
  }

  lemma FirstMember(t: TypeInfo)
    ensures Added([], t) == [t]
  {
    hide Equal;
  }

  lemma CastStep(p: nat, e: Tree, ts: seq<Token>)
    requires 1 <= p <= 8 && Kind(ts) == AS
    ensures
      var r := ParseTypeSet(ts[1..], []);
      Continue(p, e, ts) == if r.Got? then Continue(p, Cast(e, r.value), r.rest) else Rejected
  {
    hide ParseTypeSet;
    hide ParseRight;
    hide ParseArgs;
  }

  /** A cast after an operator is of the operator's right operand. */
  lemma CastOfRight(a: seq<Token>, x: Tree, k: TokenType, b: seq<Token>, y: Tree, t: TokenType)
    requires Operand(a, x) && Operand(b, y) && Class(k) > 0 && NamedBy(t).Some?
    ensures Whole(a + [Sym(k)] + (b + [Sym(AS), Sym(t)]), Binary(OperatorOf(k), x, Cast(y, TypeSet([NamedBy(t).value]))))
  {
    hide ParseAt;
    hide Continue;
    hide Operand;
    hide OperatorOf;
    var cast := Cast(y, TypeSet([NamedBy(t).value]));
    forall rest: seq<Token> | Ends(rest)
      ensures ParseAt(P_ASSIGNMENT, a + [Sym(k)] + (b + [Sym(AS), Sym(t)]) + rest) == Got(Binary(OperatorOf(k), x, cast), rest)
    {
      var right := b + ([Sym(AS), Sym(t)] + rest);
      var p := if ToTheRight(k) then Class(k) + 1 else Class(k) + 2;
      assert a + [Sym(k)] + (b + [Sym(AS), Sym(t)]) + rest == a + ([Sym(k)] + right);
      CastGroups(p, b, y, t, rest);
      StopsAt(p, cast, rest);
      FirstRead(1, a, x, [Sym(k)] + right);
      Highest(k);
      GoesOn(1, x, k, right, cast, rest);
      StopsAt(1, Binary(OperatorOf(k), x, cast), rest);
    }
  }

  lemma FirstRead(p: nat, ts: seq<Token>, e: Tree, rest: seq<Token>)
    requires 1 <= p <= 9 && Operand(ts, e) && Plainly(rest)
    ensures ParseAt(p, ts + rest) == NoTarget(p, Continue(p, e, rest))
  {
    hide ParseAt;
    hide Continue;
  }

  function ListText(texts: seq<seq<Token>>): seq<Token> {
    if texts == [] then [] else if |texts| == 1 then texts[0] else texts[0] + [Sym(COMMA)] + ListText(texts[1..])
  }

  function ArgsOf(xs: seq<Tree>): Args {
    if xs == [] then NoArgs else Arg(xs[0], ArgsOf(xs[1..]))
  }

  ghost predicate Wholes(texts: seq<seq<Token>>, xs: seq<Tree>) {
    |texts| == |xs| && forall i :: 0 <= i < |xs| ==> Whole(texts[i], xs[i])
  }

  /** A call binds more strongly than anything before it: its callee is the name, call or
      group just before it, with the arguments in order, of which there are at most 255. */
  lemma CallPrimary(ts: seq<Token>, f: Tree, texts: seq<seq<Token>>, xs: seq<Tree>)
    requires Primary(ts, f) && Wholes(texts, xs) && |xs| <= 255
    ensures Primary(ts + [Sym(LEFT_PAREN)] + ListText(texts) + [Sym(RIGHT_PAREN)], Tree.Call(f, ArgsOf(xs)))
  {
    hide ParseAt;
    hide Continue;
    hide ParseArgs;
    hide Class;
    hide Whole;
    hide ListText;
    hide ArgsOf;
    var text := ts + [Sym(LEFT_PAREN)] + ListText(texts) + [Sym(RIGHT_PAREN)];
    forall p: nat, rest: seq<Token> | 1 <= p <= 10 && Kind(rest) != EQUAL_SIGN
      ensures ParseAt(p, text + rest) == NoTarget(p, Continue(p, Tree.Call(f, ArgsOf(xs)), rest))
    {
      var close := [Sym(RIGHT_PAREN)] + rest;
      var open := [Sym(LEFT_PAREN)] + (ListText(texts) + close);
      assert text + rest == ts + open;
      assert open[1..] == ListText(texts) + close && close[1..] == rest;
      ListRead(texts, xs, 0, close);
      CallStep(p, f, open);
      CalleeRead(p, ts, f, open);
    }
  }

  lemma CalleeRead(p: nat, ts: seq<Token>, e: Tree, rest: seq<Token>)
    requires 1 <= p <= 10 && Primary(ts, e) && Kind(rest) != EQUAL_SIGN
    ensures ParseAt(p, ts + rest) == NoTarget(p, Continue(p, e, rest))
  {
    hide ParseAt;
    hide Continue;
  }

  lemma TooManyArguments(p: nat, ts: seq<Token>, f: Tree, texts: seq<seq<Token>>, xs: seq<Tree>, rest: seq<Token>)
    requires Primary(ts, f) && Wholes(texts, xs) && |xs| > 255 && 1 <= p <= 10
    ensures ParseAt(p, ts + ([Sym(LEFT_PAREN)] + (ListText(texts) + ([Sym(RIGHT_PAREN)] + rest)))) == Rejected
  {
    hide Continue;
    hide ParseAt;
    var close := [Sym(RIGHT_PAREN)] + rest;
    var open := [Sym(LEFT_PAREN)] + (ListText(texts) + close);
    assert open[1..] == ListText(texts) + close;
    ListRead(texts, xs, 0, close);
    CallStep(p, f, open);
  }

  lemma CallStep(p: nat, f: Tree, ts: seq<Token>)
    requires 1 <= p <= 10 && Kind(ts) == LEFT_PAREN
    ensures
      var r := ParseArgs(ts[1..], 0);
      Continue(p, f, ts) == if r.Got? then Continue(p, Tree.Call(f, r.value), r.rest) else if r.Rejected? then Rejected else BlockAhead
  {
    hide ParseTypeSet;
    hide ParseRight;
    hide ParseArgs;
  }

  /** No expression begins with a closing parenthesis. */
  lemma NotClosing(ts: seq<Token>, e: Tree, rest: seq<Token>)
    requires Whole(ts, e) && Ends(rest)
    ensures Kind(ts + rest) != RIGHT_PAREN && ParseAt(P_ASSIGNMENT, ts + rest) == Got(e, rest)
  {
    hide Continue;
  }

  lemma {:induction false} ListRead(texts: seq<seq<Token>>, xs: seq<Tree>, count: nat, close: seq<Token>)
    requires Wholes(texts, xs) && Kind(close) == RIGHT_PAREN && count <= 255
    ensures ParseArgs(ListText(texts) + close, count) == if count + |xs| <= 255 then Got(ArgsOf(xs), close[1..]) else Rejected
    decreases |texts|
  {
    hide ParseAt;
    hide Whole;
    if texts == [] {
      assert ListText(texts) + close == close;
    } else if |texts| == 1 {
      NotClosing(texts[0], xs[0], close);
    } else {
      var more := [Sym(COMMA)] + (ListText(texts[1..]) + close);
      assert ListText(texts) + close == texts[0] + more;
      assert more[1..] == ListText(texts[1..]) + close;
      NotClosing(texts[0], xs[0], more);
      if count < 255 { ListRead(texts[1..], xs[1..], count + 1, close); }
    }
  }

  /** Assignments take all that follows, and nest to the right. */
  lemma AssignmentTakesAll(name: string, ts: seq<Token>, e: Tree)
    requires Whole(ts, e)
    ensures Whole([Token(IDENTIFIER, name, Value.Nil), Sym(EQUAL_SIGN)] + ts, Tree.Assign(name, e))
  {
    hide ParseAt;
    hide Continue;
    var text := [Token(IDENTIFIER, name, Value.Nil), Sym(EQUAL_SIGN)] + ts;
    forall rest: seq<Token> | Ends(rest) ensures ParseAt(P_ASSIGNMENT, text + rest) == Got(Tree.Assign(name, e), rest) {
      assert (text + rest)[1..][1..] == ts + rest && (text + rest)[2..] == ts + rest;
      assert ParseAt(P_ASSIGNMENT, ts + rest) == Got(e, rest);
      AssignmentStep(text + rest, e, rest);
      StopsAt(1, Tree.Assign(name, e), rest);
    }
  }

  lemma AssignmentStep(ts: seq<Token>, e: Tree, rest: seq<Token>)
    requires Kind(ts) == IDENTIFIER && Kind(ts[1..]) == EQUAL_SIGN && ParseAt(P_ASSIGNMENT, ts[2..]) == Got(e, rest)
    ensures ParseAt(P_ASSIGNMENT, ts) == NoTarget(P_ASSIGNMENT, Continue(P_ASSIGNMENT, Tree.Assign(ts[0].name, e), rest))
  {
    hide Continue;
  }

  /** An operator's right operand is no target: assigning to it is an error. */
  lemma NoAssignmentToOperand(a: seq<Token>, x: Tree, k: TokenType, b: Token, rest: seq<Token>)
    requires Operand(a, x) && Class(k) > 0 && IsLeaf(b)
    ensures ParseAt(P_ASSIGNMENT, a + ([Sym(k), b, Sym(EQUAL_SIGN)] + rest)) == Rejected
  {
    hide ParseAt;
    hide Continue;
    hide Operand;
    hide OperatorOf;
    var equals := [Sym(EQUAL_SIGN)] + rest;
    var right := [b] + equals;
    var p := if ToTheRight(k) then Class(k) + 1 else Class(k) + 2;
    assert [Sym(k), b, Sym(EQUAL_SIGN)] + rest == [Sym(k)] + right;
    assert right[1..] == equals;
    LeafAtLevel(p, right);
    FirstRead(1, a, x, [Sym(k)] + right);
    GoesOn(1, x, k, right, LeafOf(b), equals);
    StopsAt(1, Binary(OperatorOf(k), x, LeafOf(b)), equals);
  }

  lemma LeafAtLevel(p: nat, ts: seq<Token>)
    requires p > 1 && ts != [] && IsLeaf(ts[0]) && Kind(ts[1..]) == EQUAL_SIGN
    ensures ParseAt(p, ts) == Got(LeafOf(ts[0]), ts[1..])
  {
    hide Continue;
    hide ParsePrefix;
    LeafPrefix(false, ts);
    StopsAt(p, LeafOf(ts[0]), ts[1..]);
  }
}
