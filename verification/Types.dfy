/** Types of expressions: unions of basic and function types, their equality, when one may
    be assigned to another, and the checks of operators and calls. */
module Types {
  import opened Bytecode
  import opened Values
  import M = Machine

  datatype TypeInfo =
    | NoneType | AnyType | NilType | BoolType | IntType | FloatType | CharType | StringType
    | FunctionType(params: seq<TypeSet>, ret: TypeSet)
  {
    predicate IsNumber() { IntType? || FloatType? }
  }

  /** A union; the order of its members does not matter, but is kept. */
  datatype TypeSet = TypeSet(types: seq<TypeInfo>)

  // ----- sizes, for recursion that swaps its two sides -----

  function Weight(t: TypeInfo): (w: nat)
    decreases t
  {
    match t
    case FunctionType(params, ret) => 1 + SetsWeight(params) + SetWeight(ret)
    case _ => 1
  }

  function SetWeight(s: TypeSet): (w: nat)
    ensures forall t <- s.types :: Weight(t) < w
    decreases s
  {
    1 + TypesWeight(s.types)
  }

  function TypesWeight(ts: seq<TypeInfo>): (w: nat)
    ensures forall t <- ts :: Weight(t) <= w
    decreases ts
  {
    if ts == [] then 0 else Weight(ts[0]) + TypesWeight(ts[1..])
  }

  function SetsWeight(ss: seq<TypeSet>): (w: nat)
    ensures forall s <- ss :: SetWeight(s) <= w
    decreases ss
  {
    if ss == [] then 0 else SetWeight(ss[0]) + SetsWeight(ss[1..])
  }

  // ----- equality -----

  predicate Equal(a: TypeInfo, b: TypeInfo)
    decreases Weight(a) + Weight(b)
  {
    if a.FunctionType? && b.FunctionType? then
      && |a.params| == |b.params|
      && (forall i :: 0 <= i < |a.params| ==> EqualSets(a.params[i], b.params[i]))
      && EqualSets(a.ret, b.ret)
    else a == b
  }

  predicate Contains(s: TypeSet, t: TypeInfo)
    decreases SetWeight(s) + Weight(t)
  {
    exists x <- s.types :: Equal(x, t)
  }

  /** Equally long, and every member of the left one is among those of the right one. */
  predicate EqualSets(s: TypeSet, t: TypeSet)
    decreases SetWeight(s) + SetWeight(t)
  {
    |s.types| == |t.types| && forall x <- s.types :: Contains(t, x)
  }

  // ----- assignability -----

  /** A value of type `r` may be put where `l` is declared. Parameters are contravariant;
      return types are not compared. */
  predicate Assignable(l: TypeInfo, r: TypeInfo)
    decreases Weight(l) + Weight(r)
  {
    || l.AnyType? || Equal(l, r) || (l.FloatType? && r.IntType?)
    || (l.FunctionType? && r.FunctionType? && |l.params| == |r.params|
        && forall i :: 0 <= i < |l.params| ==> AssignableSets(r.params[i], l.params[i]))
  }

  predicate Accepts(s: TypeSet, t: TypeInfo)
    decreases SetWeight(s) + Weight(t)
  {
    exists x <- s.types :: Assignable(x, t)
  }

  predicate AssignableSets(s: TypeSet, t: TypeSet)
    decreases SetWeight(s) + SetWeight(t)
  {
    forall x <- t.types :: Accepts(s, x)
  }

  // ----- equality is reflexive and transitive -----

  lemma {:induction false} EqualSelf(t: TypeInfo)
    ensures Equal(t, t)
    decreases Weight(t), 0
  {
    if t.FunctionType? {
      forall i | 0 <= i < |t.params| ensures EqualSets(t.params[i], t.params[i]) { EqualSetsSelf(t.params[i]); }
      EqualSetsSelf(t.ret);
    }
  }

  lemma {:induction false} EqualSetsSelf(s: TypeSet)
    ensures EqualSets(s, s)
    decreases SetWeight(s), 1
  {
    forall x <- s.types ensures Contains(s, x) { EqualSelf(x); }
  }

  lemma {:induction false} EqualAgain(a: TypeInfo, b: TypeInfo, c: TypeInfo)
    requires Equal(a, b) && Equal(b, c)
    ensures Equal(a, c)
    decreases Weight(a) + Weight(b) + Weight(c)
  {
    if a.FunctionType? && b.FunctionType? && c.FunctionType? {
      forall i | 0 <= i < |a.params| ensures EqualSets(a.params[i], c.params[i]) {
        EqualSetsAgain(a.params[i], b.params[i], c.params[i]);
      }
      EqualSetsAgain(a.ret, b.ret, c.ret);
    }
  }

  lemma {:induction false} EqualSetsAgain(s: TypeSet, t: TypeSet, u: TypeSet)
    requires EqualSets(s, t) && EqualSets(t, u)
    ensures EqualSets(s, u)
    decreases SetWeight(s) + SetWeight(t) + SetWeight(u)
  {
    forall x <- s.types ensures Contains(u, x) {
      assert Contains(t, x);
      var y :| y in t.types && Equal(y, x);
      assert Contains(u, y);
      var z :| z in u.types && Equal(z, y);
      EqualAgain(z, y, x);
    }
  }

  // ----- assignability is reflexive and transitive -----

  lemma AssignableSelf(t: TypeInfo)
    ensures Assignable(t, t)
  {
    EqualSelf(t);
  }

  lemma AssignableSetsSelf(s: TypeSet)
    ensures AssignableSets(s, s)
  {
    forall x <- s.types ensures Accepts(s, x) { AssignableSelf(x); }
  }

  /** Equality of sets only looks one way, but that is the way assignment needs. */
  lemma EqualSetsAssign(s: TypeSet, t: TypeSet)
    requires EqualSets(s, t)
    ensures AssignableSets(t, s)
  {
    forall x <- s.types ensures Accepts(t, x) {
      assert Contains(t, x);
      var y :| y in t.types && Equal(y, x);
      assert Assignable(y, x);
    }
  }

  /** Transitive on all types, nested to any depth, with or without duplicates. */
  lemma {:induction false} AssignableAgain(a: TypeInfo, b: TypeInfo, c: TypeInfo)
    requires Assignable(a, b) && Assignable(b, c)
    ensures Assignable(a, c)
    decreases Weight(a) + Weight(b) + Weight(c)
  {
    if Equal(a, b) && Equal(b, c) {
      EqualAgain(a, b, c);
    } else if a.FunctionType? && b.FunctionType? && c.FunctionType? {
      forall i | 0 <= i < |a.params| ensures AssignableSets(c.params[i], a.params[i]) {
        if Equal(a, b) { EqualSetsAssign(a.params[i], b.params[i]); }
        if Equal(b, c) { EqualSetsAssign(b.params[i], c.params[i]); }
        AssignableSetsAgain(c.params[i], b.params[i], a.params[i]);
      }
    }
  }

  lemma {:induction false} AssignableSetsAgain(s: TypeSet, t: TypeSet, u: TypeSet)
    requires AssignableSets(s, t) && AssignableSets(t, u)
    ensures AssignableSets(s, u)
    decreases SetWeight(s) + SetWeight(t) + SetWeight(u)
  {
    forall x <- u.types ensures Accepts(s, x) {
      assert Accepts(t, x);
      var y :| y in t.types && Assignable(y, x);
      assert Accepts(s, y);
      var z :| z in s.types && Assignable(z, y);
      AssignableAgain(z, y, x);
    }
  }

  // ----- duplicates -----

  /** No union inside the type has two equal members. */
  ghost predicate Distinct(t: TypeInfo)
    decreases t
  {
    t.FunctionType? ==> (forall p <- t.params :: DistinctSet(p)) && DistinctSet(t.ret)
  }

  ghost predicate DistinctSet(s: TypeSet)
    decreases s
  {
    NoDuplicates(s) && forall t <- s.types :: Distinct(t)
  }

  ghost predicate NoDuplicates(s: TypeSet) {
    forall i, j :: 0 <= i < j < |s.types| ==> !Equal(s.types[i], s.types[j])
  }

  /** As many different numbers below `n` as there are. */
  lemma Pigeons(w: seq<nat>, n: nat, k: nat)
    requires |w| == n && k < n
    requires forall i :: 0 <= i < n ==> w[i] < n
    requires forall i, j :: 0 <= i < j < n ==> w[i] != w[j]
    ensures k in w
  {
    if k !in w {
      assert ImageOf(w) <= Below(n) - {k};
      Smaller(ImageOf(w), Below(n) - {k});
    }
  }

  ghost function Below(n: nat): (s: set<nat>)
    ensures |s| == n && forall k: nat :: k in s <==> k < n
  {
    if n == 0 then {} else Below(n - 1) + {n - 1}
  }

  ghost function ImageOf(w: seq<nat>): (s: set<nat>)
    requires forall i, j :: 0 <= i < j < |w| ==> w[i] != w[j]
    ensures |s| == |w| && forall k :: k in s <==> k in w
  {
    if w == [] then {}
    else
      var init, last := w[..|w| - 1], w[|w| - 1];
      assert w == init + [last] && last !in init;
      ImageOf(init) + {last}
  }

  lemma Smaller(a: set<nat>, b: set<nat>)
    requires a <= b
    ensures |a| <= |b|
  {
    assert b == a + (b - a);
  }

  /** Among duplicate-free types, equality is an equivalence. */
  lemma {:induction false} EqualBack(a: TypeInfo, b: TypeInfo)
    requires Equal(a, b) && Distinct(a) && Distinct(b)
    ensures Equal(b, a)
    decreases Weight(a) + Weight(b)
  {
    if a.FunctionType? && b.FunctionType? {
      forall i | 0 <= i < |a.params| ensures EqualSets(b.params[i], a.params[i]) {
        assert a.params[i] in a.params && b.params[i] in b.params;
        EqualSetsBack(a.params[i], b.params[i]);
      }
      EqualSetsBack(a.ret, b.ret);
    }
  }

  /** A set without duplicates that equals another one is equalled by it: the members
      that match those of `s` are all different, so they are all of `t`. */
  lemma {:induction false} EqualSetsBack(s: TypeSet, t: TypeSet)
    requires EqualSets(s, t) && NoDuplicates(s)
    requires (forall x <- s.types :: Distinct(x)) && forall y <- t.types :: Distinct(y)
    ensures EqualSets(t, s)
    decreases SetWeight(s) + SetWeight(t)
  {
    var w := Matches(s, t);
    forall i, j | 0 <= i < j < |w| ensures w[i] != w[j] {
      if w[i] == w[j] {
        EqualBack(t.types[w[i]], s.types[i]);
        EqualAgain(s.types[i], t.types[w[i]], s.types[j]);
      }
    }
    forall k | 0 <= k < |t.types| ensures Contains(s, t.types[k]) {
      Pigeons(w, |t.types|, k);
      var i :| 0 <= i < |w| && w[i] == k;
      EqualBack(t.types[k], s.types[i]);
    }
  }

  /** Where each member of `s` is found in `t`. */
  ghost function Matches(s: TypeSet, t: TypeSet): (w: seq<nat>)
    requires EqualSets(s, t)
    ensures |w| == |s.types|
    ensures forall i :: 0 <= i < |w| ==> w[i] < |t.types| && Equal(t.types[w[i]], s.types[i])
  {
    seq(|s.types|, i requires 0 <= i < |s.types| => MatchOf(t, s.types[i], s))
  }

  ghost function MatchOf(t: TypeSet, x: TypeInfo, s: TypeSet): (j: nat)
    requires EqualSets(s, t) && x in s.types
    ensures j < |t.types| && Equal(t.types[j], x)
  {
    assert Contains(t, x);
    var y :| y in t.types && Equal(y, x);
    var j :| 0 <= j < |t.types| && t.types[j] == y;
    j
  }

  // ----- exactly when equality of sets is symmetric -----

  /** A type that is nested `n` deep. */
  function Tower(n: nat): TypeInfo {
    if n == 0 then NilType else FunctionType([TypeSet([Tower(n - 1)])], TypeSet([]))
  }

  lemma {:induction false} TowerDistinct(n: nat)
    ensures Distinct(Tower(n))
  {
    if n > 0 { TowerDistinct(n - 1); }
  }

  /** Only large types equal a high tower. */
  lemma {:induction false} TowerIsLarge(n: nat, t: TypeInfo)
    requires Equal(Tower(n), t) || Equal(t, Tower(n))
    ensures Weight(t) > n
    decreases n
  {
    if n > 0 {
      var below := TowerBelow(n, t);
      TowerIsLarge(n - 1, below);
      assert Weight(below) < SetWeight(t.params[0]) <= SetsWeight(t.params);
    }
  }

  /** What a type that equals a tower has one level down. */
  lemma TowerBelow(n: nat, t: TypeInfo) returns (y: TypeInfo)
    requires n > 0 && (Equal(Tower(n), t) || Equal(t, Tower(n)))
    ensures t.FunctionType? && |t.params| == 1 && y in t.params[0].types
    ensures Equal(Tower(n - 1), y) || Equal(y, Tower(n - 1))
  {
    hide Weight;
    var p, q := t.params[0], TypeSet([Tower(n - 1)]);
    assert Tower(n).params == [q] && q.types == [Tower(n - 1)];
    if Equal(Tower(n), t) {
      assert EqualSets(q, p) && Tower(n - 1) in q.types;
      assert Contains(p, Tower(n - 1));
      y :| y in p.types && Equal(y, Tower(n - 1));
    } else {
      assert EqualSets(p, q);
      y := p.types[0];
      assert Contains(q, y);
    }
  }

  /** Equality of unions is symmetric from `s` on if and only if `s` has no duplicates. */
  lemma SymmetricIff(s: TypeSet)
    requires forall x <- s.types :: Distinct(x)
    ensures NoDuplicates(s) <==>
      forall t: TypeSet :: EqualSets(s, t) && (forall y <- t.types :: Distinct(y)) ==> EqualSets(t, s)
  {
    if NoDuplicates(s) {
      forall t: TypeSet | EqualSets(s, t) && (forall y <- t.types :: Distinct(y)) ensures EqualSets(t, s) {
        EqualSetsBack(s, t);
      }
    } else {
      var i, j :| 0 <= i < j < |s.types| && Equal(s.types[i], s.types[j]);
      DuplicateReplaced(s, i, j);
    }
  }

  lemma DuplicateReplaced(s: TypeSet, i: nat, j: nat)
    requires i < j < |s.types| && Equal(s.types[i], s.types[j]) && forall x <- s.types :: Distinct(x)
    ensures exists t: TypeSet :: EqualSets(s, t) && (forall y <- t.types :: Distinct(y)) && !EqualSets(t, s)
  {
    var n := SetWeight(s);
    var t := TypeSet(s.types[j := Tower(n)]);
    TowerDistinct(n);
    forall x <- s.types ensures Contains(t, x) {
      var k :| 0 <= k < |s.types| && s.types[k] == x;
      var m := if k == j then i else k;
      EqualSelf(x);
      assert t.types[m] in t.types && Equal(t.types[m], x);
    }
    if Contains(s, Tower(n)) {
      var y :| y in s.types && Equal(y, Tower(n));
      TowerIsLarge(n, y);
    }
    assert t.types[j] in t.types && !Contains(s, t.types[j]);
    assert EqualSets(s, t) && !EqualSets(t, s);
  }

  // ----- building unions -----

  function Added(s: seq<TypeInfo>, t: TypeInfo): (r: seq<TypeInfo>)
    ensures Contains(TypeSet(r), t)
  {
    if Contains(TypeSet(s), t) then s
    else
      EqualSelf(t);
      assert t in (s + [t]);
      s + [t]
  }

  function AddedAll(s: seq<TypeInfo>, ts: seq<TypeInfo>): seq<TypeInfo>
    decreases |ts|
  {
    if ts == [] then s else Added(AddedAll(s, ts[..|ts| - 1]), ts[|ts| - 1])
  }

  lemma AddedDistinct(s: seq<TypeInfo>, t: TypeInfo)
    requires DistinctSet(TypeSet(s)) && Distinct(t)
    ensures DistinctSet(TypeSet(Added(s, t)))
  {
    forall i | 0 <= i < |s| && !Contains(TypeSet(s), t) ensures !Equal(s[i], t) { assert s[i] in s; }
  }

  lemma {:induction false} AddedAllDistinct(s: seq<TypeInfo>, ts: seq<TypeInfo>)
    requires DistinctSet(TypeSet(s)) && forall t <- ts :: Distinct(t)
    ensures DistinctSet(TypeSet(AddedAll(s, ts)))
    decreases |ts|
  {
    if ts != [] {
      AddedAllDistinct(s, ts[..|ts| - 1]);
      AddedDistinct(AddedAll(s, ts[..|ts| - 1]), ts[|ts| - 1]);
    }
  }

  /** A union under construction. */
  class Union {
    var types: seq<TypeInfo>

    constructor ()
      ensures types == []
    {
      types := [];
    }

    method Add(val: TypeInfo)
      modifies this
      ensures types == Added(old(types), val)
      ensures DistinctSet(TypeSet(old(types))) && Distinct(val) ==> DistinctSet(TypeSet(types))
    {
      if DistinctSet(TypeSet(types)) && Distinct(val) { AddedDistinct(types, val); }
      for i := 0 to |types|
        invariant forall j :: 0 <= j < i ==> !Equal(types[j], val)
        invariant types == old(types)
      {
        if Equal(types[i], val) {
          return;
        }
      }
      types := types + [val];
    }

    /** Takes over the members of another union, which is empty afterwards. */
    method MoveAllFrom(other: Union)
      requires other != this
      modifies this, other
      ensures types == AddedAll(old(types), old(other.types)) && other.types == []
    {
      for i := 0 to |other.types|
        invariant other.types == old(other.types) && types == AddedAll(old(types), other.types[..i])
      {
        assert other.types[..i + 1][..i] == other.types[..i];
        Add(other.types[i]);
      }
      assert other.types[..|other.types|] == other.types;
      other.types := [];
    }
  }

  // ----- the checks of operators -----

  function ArithmeticType(l: TypeInfo, r: TypeInfo): TypeInfo {
    if l.IntType? && r.IntType? then IntType
    else if l.IsNumber() && r.IsNumber() then FloatType
    else NoneType
  }

  /** Int if both sides can be, Float if one side can be, without repetition; and nothing,
      which is an error, if a side is empty or has a member that is no number. */
  ghost predicate ArithmeticTypes(l: seq<TypeInfo>, r: seq<TypeInfo>, result: seq<TypeInfo>) {
    var accepted := l != [] && r != [] && (forall t <- l :: t.IsNumber()) && (forall t <- r :: t.IsNumber());
    && (result == [] <==> !accepted)
    && (forall t <- result :: t.IsNumber())
    && (forall i, j :: 0 <= i < j < |result| ==> result[i] != result[j])
    && (accepted ==> (IntType in result <==> IntType in l && IntType in r))
    && (accepted ==> (FloatType in result <==> FloatType in l || FloatType in r))
  }

  method ArithmeticRow(l: TypeInfo, r: seq<TypeInfo>) returns (result: Union)
    ensures fresh(result) && ArithmeticTypes([l], r, result.types)
  {
    result := new Union();
    for i := 0 to |r|
      invariant fresh(result) && ArithmeticTypes([l], r[..i], result.types)
      invariant forall t <- r[..i] :: l.IsNumber() && t.IsNumber()
    {
      var t := ArithmeticType(l, r[i]);
      assert r[..i + 1] == r[..i] + [r[i]];
      if t.NoneType? {
        assert r[i] in r;
        result := new Union();
        return;
      }
      NumbersAdded(result.types, t);
      result.Add(t);
    }
    assert r[..|r|] == r;
  }

  /** Numbers are equal exactly when they are the same. */
  lemma NumbersAdded(s: seq<TypeInfo>, t: TypeInfo)
    requires t.IsNumber()
    ensures Added(s, t) == if t in s then s else s + [t]
  {
    assert Equal(t, t);
    assert Contains(TypeSet(s), t) <==> t in s;
  }

  lemma {:induction false} NumbersAddedAll(s: seq<TypeInfo>, ts: seq<TypeInfo>)
    requires (forall t <- ts :: t.IsNumber()) && (forall t <- s :: t.IsNumber())
    requires forall i, j :: 0 <= i < j < |s| ==> s[i] != s[j]
    ensures
      var r := AddedAll(s, ts);
      && (forall t :: t in r <==> t in s || t in ts)
      && (forall t <- r :: t.IsNumber())
      && (forall i, j :: 0 <= i < j < |r| ==> r[i] != r[j])
    decreases |ts|
  {
    hide Added;
    hide Contains;
    hide Equal;
    if ts != [] {
      var n := |ts| - 1;
      NumbersAddedAll(s, ts[..n]);
      var a := AddedAll(s, ts[..n]);
      assert AddedAll(s, ts) == Added(a, ts[n]);
      hide AddedAll;
      NumbersAdded(a, ts[n]);
      OneMore(s, ts[..n], a, ts[n]);
      assert ts == ts[..n] + [ts[n]];
    }
  }

  lemma OneMore(s: seq<TypeInfo>, ts: seq<TypeInfo>, a: seq<TypeInfo>, t: TypeInfo)
    requires (forall x :: x in a <==> x in s || x in ts) && (forall x <- a :: x.IsNumber()) && t.IsNumber()
    requires forall i, j :: 0 <= i < j < |a| ==> a[i] != a[j]
    ensures
      var r := if t in a then a else a + [t];
      && (forall x :: x in r <==> x in s || x in ts + [t])
      && (forall x <- r :: x.IsNumber())
      && (forall i, j :: 0 <= i < j < |r| ==> r[i] != r[j])
  {
  }

  method TypeCheckArithmetic(l: seq<TypeInfo>, r: seq<TypeInfo>) returns (result: Union)
    ensures fresh(result) && ArithmeticTypes(l, r, result.types)
  {
    result := new Union();
    for i := 0 to |l|
      invariant fresh(result) && ArithmeticTypes(l[..i], r, result.types)
      invariant i > 0 ==> result.types != []
    {
      var row := ArithmeticRow(l[i], r);
      assert l[..i + 1] == l[..i] + [l[i]] && l[i] in [l[i]];
      if row.types == [] {
        assert l[i] in l;
        result := new Union();
        return;
      }
      NumbersAddedAll(result.types, row.types);
      result.MoveAllFrom(row);
    }
    assert l[..|l|] == l;
  }

  predicate TypeCheckComparison(l: seq<TypeInfo>, r: seq<TypeInfo>) {
    forall a <- l :: forall b <- r :: a.IsNumber() && b.IsNumber()
  }

  predicate TypeCheckNegate(r: seq<TypeInfo>) {
    forall t <- r :: t.IsNumber()
  }

  ghost predicate BinaryTypes(op: BinaryOp, l: seq<TypeInfo>, r: seq<TypeInfo>, result: seq<TypeInfo>) {
    match op
    case Eq | Ne => result == [BoolType]
    case Gt | Ge | Lt | Le => result == if TypeCheckComparison(l, r) then [BoolType] else []
    case Add | Sub | Mul | Div => ArithmeticTypes(l, r, result)
  }

  /** The type of a binary operation; the empty union is an error. */
  method TypeCheckBinary(op: BinaryOp, l: seq<TypeInfo>, r: seq<TypeInfo>) returns (result: seq<TypeInfo>)
    ensures BinaryTypes(op, l, r, result)
  {
    match op
    case Eq | Ne => return [BoolType];
    case Gt | Ge | Lt | Le => return if TypeCheckComparison(l, r) then [BoolType] else [];
    case Add | Sub | Mul | Div =>
      var u := TypeCheckArithmetic(l, r);
      return u.types;
  }

  // ----- the check of assignments -----

  /** The check as the compiler makes it, parameter by parameter. */
  method TypeCheckAssign(l: TypeInfo, r: TypeInfo) returns (ok: bool)
    ensures ok == Assignable(l, r)
    decreases Weight(l) + Weight(r)
  {
    if l.AnyType? || Equal(l, r) || (l.FloatType? && r.IntType?) {
      return true;
    }
    if l.FunctionType? && r.FunctionType? {
      if |l.params| != |r.params| {
        return false;
      }
      for i := 0 to |l.params|
        invariant forall j :: 0 <= j < i ==> AssignableSets(r.params[j], l.params[j])
      {
        var each := TypeCheckAssignSets(r.params[i], l.params[i]);
        if !each {
          return false;
        }
      }
      return true;
    }
    return false;
  }

  method TypeCheckAssignSets(s: TypeSet, t: TypeSet) returns (ok: bool)
    ensures ok == AssignableSets(s, t)
    decreases SetWeight(s) + SetWeight(t)
  {
    for i := 0 to |t.types|
      invariant forall j :: 0 <= j < i ==> Accepts(s, t.types[j])
    {
      var found := false;
      for k := 0 to |s.types|
        invariant found ==> Accepts(s, t.types[i])
        invariant !found ==> forall j :: 0 <= j < k ==> !Assignable(s.types[j], t.types[i])
      {
        if !found { found := TypeCheckAssign(s.types[k], t.types[i]); }
      }
      if !found {
        assert t.types[i] in t.types && !Accepts(s, t.types[i]);
        return false;
      }
    }
    return true;
  }

  // ----- the check of calls -----

  predicate ArgumentsFit(params: seq<TypeSet>, args: seq<TypeSet>) {
    |params| == |args| && forall i :: 0 <= i < |args| ==> AssignableSets(params[i], args[i])
  }

  /** The result of calling one member of the callee's union. */
  function CallOne(callee: TypeInfo, args: seq<TypeSet>): seq<TypeInfo> {
    if callee.FunctionType? && ArgumentsFit(callee.params, args) then callee.ret.types else []
  }

  /** The union of the results; the empty union is an error. */
  function CallTypes(callee: seq<TypeInfo>, args: seq<TypeSet>): seq<TypeInfo> {
    if exists c <- callee :: CallOne(c, args) == [] then [] else Results(callee, args)
  }

  function Results(callee: seq<TypeInfo>, args: seq<TypeSet>): seq<TypeInfo>
    decreases |callee|
  {
    if callee == [] then []
    else AddedAll(Results(callee[..|callee| - 1], args), CallOne(callee[|callee| - 1], args))
  }

  method TypeCheckCallOne(callee: TypeInfo, args: seq<TypeSet>) returns (result: Union)
    ensures fresh(result) && result.types == CallOne(callee, args)
  {
    result := new Union();
    if !callee.FunctionType? {
      return;
    }
    if |callee.params| != |args| {
      return;
    }
    for i := 0 to |args|
      invariant forall j :: 0 <= j < i ==> AssignableSets(callee.params[j], args[j])
      invariant fresh(result) && result.types == []
    {
      var ok := TypeCheckAssignSets(callee.params[i], args[i]);
      if !ok {
        return;
      }
    }
    result.types := callee.ret.types;
  }

  method TypeCheckCall(callee: seq<TypeInfo>, args: seq<TypeSet>) returns (result: Union)
    ensures fresh(result) && result.types == CallTypes(callee, args)
  {
    result := new Union();
    for i := 0 to |callee|
      invariant fresh(result) && result.types == Results(callee[..i], args)
      invariant forall c <- callee[..i] :: CallOne(c, args) != []
    {
      assert callee[..i + 1][..i] == callee[..i];
      var one := TypeCheckCallOne(callee[i], args);
      if one.types == [] {
        assert callee[i] in callee;
        result := new Union();
        return;
      }
      assert callee[..i + 1] == callee[..i] + [callee[i]];
      result.MoveAllFrom(one);
    }
    assert callee[..|callee|] == callee;
  }

  /** A call that checks still does, with the same result, when arguments of other types
      are passed that can be assigned to the ones it checked with. */
  lemma CallStable(callee: seq<TypeInfo>, args: seq<TypeSet>, others: seq<TypeSet>)
    requires CallTypes(callee, args) != [] && |others| == |args|
    requires forall i :: 0 <= i < |args| ==> AssignableSets(args[i], others[i])
    ensures CallTypes(callee, others) == CallTypes(callee, args)
  {
    forall c <- callee ensures CallOne(c, others) == CallOne(c, args) { CallOneStable(c, args, others); }
    SameResults(callee, args, others);
  }

  lemma CallOneStable(c: TypeInfo, args: seq<TypeSet>, others: seq<TypeSet>)
    requires CallOne(c, args) != [] && |others| == |args|
    requires forall i :: 0 <= i < |args| ==> AssignableSets(args[i], others[i])
    ensures CallOne(c, others) == CallOne(c, args)
  {
    forall i | 0 <= i < |args| ensures AssignableSets(c.params[i], others[i]) {
      AssignableSetsAgain(c.params[i], args[i], others[i]);
    }
  }

  lemma {:induction false} SameResults(callee: seq<TypeInfo>, args: seq<TypeSet>, others: seq<TypeSet>)
    requires forall c <- callee :: CallOne(c, others) == CallOne(c, args)
    ensures Results(callee, others) == Results(callee, args)
    decreases |callee|
  {
    if callee != [] { SameResults(callee[..|callee| - 1], args, others); }
  }

  /** A function that can be assigned to another one takes every call that one takes. */
  lemma AssignedCallee(f: TypeInfo, g: TypeInfo, args: seq<TypeSet>)
    requires f.FunctionType? && Assignable(f, g) && ArgumentsFit(f.params, args)
    ensures g.FunctionType? && ArgumentsFit(g.params, args) && CallOne(g, args) == g.ret.types
  {
    forall i | 0 <= i < |args| ensures AssignableSets(g.params[i], args[i]) {
      if Equal(f, g) { EqualSetsAssign(f.params[i], g.params[i]); }
      AssignableSetsAgain(g.params[i], f.params[i], args[i]);
    }
  }

  /** But its result need not be what the declared function promises: whatever their
      results are, functions with equal parameters can be assigned to each other. */
  lemma ReturnsIgnored(params: seq<TypeSet>, ret: TypeSet, other: TypeSet)
    ensures Assignable(FunctionType(params, ret), FunctionType(params, other))
    ensures CallOne(FunctionType(params, ret), params) == ret.types
    ensures CallOne(FunctionType(params, other), params) == other.types
  {
    forall i | 0 <= i < |params| ensures AssignableSets(params[i], params[i]) { AssignableSetsSelf(params[i]); }
  }

  // ----- what the machine makes of it -----

  /** The values of a type. An integer is also a float, and a closure has the type of a
      function if its function takes that many parameters. */
  predicate Inhabits(v: Value, t: TypeInfo, protos: seq<M.Proto>) {
    match t
    case NoneType => false
    case AnyType => true
    case NilType => v.Nil?
    case BoolType => v.Bool?
    case IntType => v.Int?
    case FloatType => v.IsNumber()
    case CharType => false
    case StringType => v.Str?
    case FunctionType(params, _) => v.Closure? && v.def < |protos| && protos[v.def].arity == |params|
  }

  predicate InhabitsOne(v: Value, s: seq<TypeInfo>, protos: seq<M.Proto>) {
    exists t <- s :: Inhabits(v, t, protos)
  }

  /** Assignable means: has no other values. */
  lemma AssignableValues(l: TypeInfo, r: TypeInfo, v: Value, protos: seq<M.Proto>)
    requires Assignable(l, r) && Inhabits(v, r, protos)
    ensures Inhabits(v, l, protos)
  {
  }

  lemma AssignableSetsValues(s: TypeSet, t: TypeSet, v: Value, protos: seq<M.Proto>)
    requires AssignableSets(s, t) && InhabitsOne(v, t.types, protos)
    ensures InhabitsOne(v, s.types, protos)
  {
    var x :| x in t.types && Inhabits(v, x, protos);
    assert Accepts(s, x);
    var y :| y in s.types && Assignable(y, x);
    AssignableValues(y, x, v, protos);
  }

  /** An accepted operation is never refused by the machine: its operands are numbers, and
      what it yields is of the type that was computed for it. Only an integer division by
      zero fails. */
  lemma BinarySound(fl: FloatOps, op: BinaryOp, l: seq<TypeInfo>, r: seq<TypeInfo>, result: seq<TypeInfo>, a: Value, b: Value, protos: seq<M.Proto>)
    requires BinaryTypes(op, l, r, result) && result != []
    requires InhabitsOne(a, l, protos) && InhabitsOne(b, r, protos)
    ensures
      match ApplyBinary(fl, op, a, b)
      case Ok(v) => InhabitsOne(v, result, protos)
      case Err(e) => e == DivisionByZero && op == Div && a.Int? && b == Int(0)
  {
    if op in {Eq, Ne} {
      assert BoolType in result;
    } else {
      NumbersIn(l, r, a, b, protos, op, result);
      if op in {Gt, Ge, Lt, Le} {
        assert BoolType in result;
      } else if a.Int? && b.Int? {
        IntegerResult(l, r, result);
      } else {
        FloatResult(l, r, result, a, b, protos);
      }
    }
  }

  lemma NumbersIn(l: seq<TypeInfo>, r: seq<TypeInfo>, a: Value, b: Value, protos: seq<M.Proto>, op: BinaryOp, result: seq<TypeInfo>)
    requires BinaryTypes(op, l, r, result) && result != [] && op !in {Eq, Ne}
    requires InhabitsOne(a, l, protos) && InhabitsOne(b, r, protos)
    ensures a.IsNumber() && b.IsNumber()
  {
  }

  /** Some number type is in the result, and every one has the integers. */
  lemma IntegerResult(l: seq<TypeInfo>, r: seq<TypeInfo>, result: seq<TypeInfo>)
    requires ArithmeticTypes(l, r, result) && result != []
    ensures IntType in result || FloatType in result
  {
    assert result[0] in result;
  }

  lemma FloatResult(l: seq<TypeInfo>, r: seq<TypeInfo>, result: seq<TypeInfo>, a: Value, b: Value, protos: seq<M.Proto>)
    requires ArithmeticTypes(l, r, result) && result != [] && !(a.Int? && b.Int?)
    requires InhabitsOne(a, l, protos) && InhabitsOne(b, r, protos) && a.IsNumber() && b.IsNumber()
    ensures FloatType in result
  {
  }

  lemma NegateSound(fl: FloatOps, r: seq<TypeInfo>, a: Value, protos: seq<M.Proto>)
    requires TypeCheckNegate(r) && InhabitsOne(a, r, protos)
    ensures ApplyUnary(fl, Neg, a).Ok? && InhabitsOne(ApplyUnary(fl, Neg, a).value, r, protos)
  {
    var t :| t in r && Inhabits(a, t, protos);
    assert Inhabits(ApplyUnary(fl, Neg, a).value, t, protos);
  }

  /** An accepted call is of a closure that takes as many arguments as are passed, so the
      machine refuses it only when there are too many frames. */
  lemma CallSound(img: M.Image, s: M.VM, argc: nat, callee: seq<TypeInfo>, args: seq<TypeSet>)
    requires CallTypes(callee, args) != [] && |args| == argc < |s.stack|
    requires InhabitsOne(M.Peek(s, argc), callee, img.protos)
    ensures M.CallStep(img, s, argc).Running? || M.CallStep(img, s, argc) == M.Fault(StackOverflow)
  {
    var c :| c in callee && Inhabits(M.Peek(s, argc), c, img.protos);
    assert CallOne(c, args) != [];
  }

  // ----- and nothing acceptable is rejected -----

  /** A value of the type that is no number, if there is one. */
  lemma NotANumber(t: TypeInfo, protos: seq<M.Proto>) returns (v: Value)
    requires exists w: Value :: Inhabits(w, t, protos)
    requires !t.IsNumber()
    ensures Inhabits(v, t, protos) && !v.IsNumber()
  {
    if t.AnyType? {
      v := Nil;
    } else {
      v :| Inhabits(v, t, protos);
    }
  }

  /** Arithmetic on inhabited types is accepted if and only if the machine never finds an
      operand that is no number. */
  lemma ArithmeticExact(fl: FloatOps, op: BinaryOp, l: seq<TypeInfo>, r: seq<TypeInfo>, result: seq<TypeInfo>, protos: seq<M.Proto>)
    requires op in {Add, Sub, Mul, Div} && BinaryTypes(op, l, r, result) && l != [] && r != []
    requires (forall t <- l :: exists v: Value :: Inhabits(v, t, protos)) && (forall t <- r :: exists v: Value :: Inhabits(v, t, protos))
    ensures result != [] <==>
      forall a: Value, b: Value :: InhabitsOne(a, l, protos) && InhabitsOne(b, r, protos) ==> ApplyBinary(fl, op, a, b) != Err(OperandsMustBeNumbers)
  {
    if result != [] {
      forall a: Value, b: Value | InhabitsOne(a, l, protos) && InhabitsOne(b, r, protos) ensures ApplyBinary(fl, op, a, b) != Err(OperandsMustBeNumbers) {
        BinarySound(fl, op, l, r, result, a, b, protos);
      }
    } else {
      var a: Value, b: Value := Offending(l, r, protos);
      assert ApplyBinary(fl, op, a, b) == Err(OperandsMustBeNumbers);
    }
  }

  lemma Offending(l: seq<TypeInfo>, r: seq<TypeInfo>, protos: seq<M.Proto>) returns (a: Value, b: Value)
    requires l != [] && r != [] && !((forall t <- l :: t.IsNumber()) && (forall t <- r :: t.IsNumber()))
    requires (forall t <- l :: exists v: Value :: Inhabits(v, t, protos)) && (forall t <- r :: exists v: Value :: Inhabits(v, t, protos))
    ensures InhabitsOne(a, l, protos) && InhabitsOne(b, r, protos) && !(a.IsNumber() && b.IsNumber())
  {
    assert l[0] in l && r[0] in r;
    a :| Inhabits(a, l[0], protos);
    b :| Inhabits(b, r[0], protos);
    if t :| t in l && !t.IsNumber() {
      a := NotANumber(t, protos);
    } else {
      var u :| u in r && !u.IsNumber();
      b := NotANumber(u, protos);
    }
  }

  lemma ComparisonExact(fl: FloatOps, op: BinaryOp, l: seq<TypeInfo>, r: seq<TypeInfo>, result: seq<TypeInfo>, protos: seq<M.Proto>)
    requires op in {Gt, Ge, Lt, Le} && BinaryTypes(op, l, r, result)
    requires (forall t <- l :: exists v: Value :: Inhabits(v, t, protos)) && (forall t <- r :: exists v: Value :: Inhabits(v, t, protos))
    ensures result != [] <==>
      forall a: Value, b: Value :: InhabitsOne(a, l, protos) && InhabitsOne(b, r, protos) ==> ApplyBinary(fl, op, a, b) != Err(OperandsMustBeNumbers)
  {
    if result != [] {
      forall a: Value, b: Value | InhabitsOne(a, l, protos) && InhabitsOne(b, r, protos) ensures ApplyBinary(fl, op, a, b) != Err(OperandsMustBeNumbers) {
        BinarySound(fl, op, l, r, result, a, b, protos);
      }
    } else {
      var a: Value, b: Value := Offending(l, r, protos);
      assert ApplyBinary(fl, op, a, b) == Err(OperandsMustBeNumbers);
    }
  }

  lemma NegateExact(fl: FloatOps, r: seq<TypeInfo>, protos: seq<M.Proto>)
    requires forall t <- r :: exists v: Value :: Inhabits(v, t, protos)
    ensures TypeCheckNegate(r) <==> forall a: Value :: InhabitsOne(a, r, protos) ==> ApplyUnary(fl, Neg, a) != Err(OperandMustBeNumber)
  {
    if TypeCheckNegate(r) {
      forall a: Value | InhabitsOne(a, r, protos) ensures ApplyUnary(fl, Neg, a) != Err(OperandMustBeNumber) { NegateSound(fl, r, a, protos); }
    } else {
      var t :| t in r && !t.IsNumber();
      var v := NotANumber(t, protos);
      assert InhabitsOne(v, r, protos) && ApplyUnary(fl, Neg, v) == Err(OperandMustBeNumber);
    }
  }

  // ----- exactly what is assignable -----

  /** Unless both are function types: assignable means that every value of the one is a value
      of the other. An integer is a value of Float, and of everything only Any is. */
  lemma AssignableExact(l: TypeInfo, r: TypeInfo, protos: seq<M.Proto>)
    requires !(l.FunctionType? && r.FunctionType?) && exists v: Value :: Inhabits(v, r, protos)
    ensures Assignable(l, r) <==> forall v: Value :: Inhabits(v, r, protos) ==> Inhabits(v, l, protos)
  {
    if Assignable(l, r) {
      forall v: Value | Inhabits(v, r, protos) ensures Inhabits(v, l, protos) { AssignableValues(l, r, v, protos); }
    } else {
      var v := Typical(r, protos);
      assert !Inhabits(v, l, protos);
    }
  }

  /** A value of the type that is a value of no other basic type, as far as there is one. */
  lemma Typical(t: TypeInfo, protos: seq<M.Proto>) returns (v: Value)
    requires exists w: Value :: Inhabits(w, t, protos)
    ensures Inhabits(v, t, protos)
    ensures forall l: TypeInfo :: Inhabits(v, l, protos) && !(l.FunctionType? && t.FunctionType?) ==> l.AnyType? || l == t || (l.FloatType? && t.IntType?)
  {
    match t
    case AnyType => v := Value.Function(0);
    case NilType => v := Nil;
    case BoolType => v := Bool(true);
    case IntType => v := Int(0);
    case FloatType => v := Flt(Float(0));
    case StringType => v := Str("");
    case FunctionType(_, _) => v :| Inhabits(v, t, protos);
    case _ =>
      assert false;
      v := Nil;
  }

  /** Of types without values nothing but equality, or Any, decides. */
  lemma UninhabitedAssigned(l: TypeInfo, r: TypeInfo)
    requires r.CharType? || r.NoneType?
    ensures Assignable(l, r) <==> l.AnyType? || l == r
  {
  }

  /** The same for unions, if the members of the right one are inhabited and no functions. */
  lemma AssignableSetsExact(s: TypeSet, t: TypeSet, protos: seq<M.Proto>)
    requires forall x <- t.types :: !x.FunctionType? && exists v: Value :: Inhabits(v, x, protos)
    ensures AssignableSets(s, t) <==> forall v: Value :: InhabitsOne(v, t.types, protos) ==> InhabitsOne(v, s.types, protos)
  {
    if AssignableSets(s, t) {
      forall v: Value | InhabitsOne(v, t.types, protos) ensures InhabitsOne(v, s.types, protos) { AssignableSetsValues(s, t, v, protos); }
    } else {
      var x :| x in t.types && !Accepts(s, x);
      var v := Typical(x, protos);
      assert InhabitsOne(v, t.types, protos);
      if InhabitsOne(v, s.types, protos) {
        var y :| y in s.types && Inhabits(v, y, protos);
        EqualSelf(x);
        assert Assignable(y, x);
        assert false;
      }
    }
  }

  /** A function type is assignable to another one if and only if it takes every call that
      the other one takes; equality adds nothing. */
  lemma FunctionsAssignableExact(f: TypeInfo, g: TypeInfo)
    requires f.FunctionType? && g.FunctionType?
    ensures Assignable(f, g) <==>
      |f.params| == |g.params| && forall args: seq<TypeSet> :: ArgumentsFit(f.params, args) ==> ArgumentsFit(g.params, args)
  {
    if Assignable(f, g) {
      forall args: seq<TypeSet> | ArgumentsFit(f.params, args) ensures ArgumentsFit(g.params, args) { AssignedCallee(f, g, args); }
    }
    if forall args: seq<TypeSet> :: ArgumentsFit(f.params, args) ==> ArgumentsFit(g.params, args) {
      forall i | 0 <= i < |f.params| ensures AssignableSets(f.params[i], f.params[i]) { AssignableSetsSelf(f.params[i]); }
      assert ArgumentsFit(f.params, f.params);
    }
  }

  // ----- exactly which types are equal -----

  /** What a type is, without the order of its unions. */
  datatype Shape = Basic(t: TypeInfo) | Fn(params: seq<set<Shape>>, ret: set<Shape>)

  ghost function ShapeOf(t: TypeInfo): Shape
    decreases t
  {
    match t
    case FunctionType(params, ret) => Fn(seq(|params|, i requires 0 <= i < |params| => ShapesOf(params[i])), ShapesOf(ret))
    case _ => Basic(t)
  }

  ghost function ShapesOf(s: TypeSet): set<Shape>
    decreases s
  {
    set x | x in s.types :: ShapeOf(x)
  }

  /** Types whose unions have no duplicates are equal exactly when they are the same but for
      the order of their unions, at every depth. */
  lemma {:induction false} EqualExact(a: TypeInfo, b: TypeInfo)
    requires Distinct(a) && Distinct(b)
    ensures Equal(a, b) <==> ShapeOf(a) == ShapeOf(b)
    decreases Weight(a) + Weight(b), 0
  {
    hide ShapesOf;
    hide EqualSets;
    hide DistinctSet;
    if a.FunctionType? && b.FunctionType? {
      EqualSetsExact(a.ret, b.ret);
      if |a.params| == |b.params| {
        forall i | 0 <= i < |a.params| ensures EqualSets(a.params[i], b.params[i]) <==> ShapesOf(a.params[i]) == ShapesOf(b.params[i]) {
          assert a.params[i] in a.params && b.params[i] in b.params;
          EqualSetsExact(a.params[i], b.params[i]);
        }
        SameShapes(a, b);
      } else {
        assert |ShapeOf(a).params| != |ShapeOf(b).params|;
      }
    }
  }

  lemma SameShapes(a: TypeInfo, b: TypeInfo)
    requires a.FunctionType? && b.FunctionType? && |a.params| == |b.params|
    ensures ShapeOf(a) == ShapeOf(b) <==>
      ShapesOf(a.ret) == ShapesOf(b.ret) && forall i :: 0 <= i < |a.params| ==> ShapesOf(a.params[i]) == ShapesOf(b.params[i])
  {
    var x, y := ShapeOf(a).params, ShapeOf(b).params;
    hide ShapesOf;
    assert forall i :: 0 <= i < |x| ==> x[i] == ShapesOf(a.params[i]) && y[i] == ShapesOf(b.params[i]);
  }

  lemma {:induction false} TwoWeights(ts: seq<TypeInfo>, i: nat, j: nat)
    requires i < j < |ts|
    ensures Weight(ts[i]) + Weight(ts[j]) <= TypesWeight(ts)
    decreases |ts|
  {
    hide Weight;
    if i > 0 { TwoWeights(ts[1..], i - 1, j - 1); } else { assert ts[j] in ts[1..]; }
  }

  lemma {:induction false} AsManyShapes(ts: seq<TypeInfo>)
    requires forall i, j :: 0 <= i < j < |ts| ==> ShapeOf(ts[i]) != ShapeOf(ts[j])
    ensures |ShapesOf(TypeSet(ts))| == |ts|
    decreases |ts|
  {
    hide ShapeOf;
    if ts != [] {
      var init, last := ts[..|ts| - 1], ts[|ts| - 1];
      AsManyShapes(init);
      assert ts == init + [last];
      assert ShapesOf(TypeSet(ts)) == ShapesOf(TypeSet(init)) + {ShapeOf(last)};
    }
  }

  lemma {:induction false} EqualSetsExact(s: TypeSet, t: TypeSet)
    requires DistinctSet(s) && DistinctSet(t)
    ensures EqualSets(s, t) <==> ShapesOf(s) == ShapesOf(t)
    decreases SetWeight(s) + SetWeight(t), 2
  {
    hide ShapeOf;
    hide Equal;
    hide Distinct;
    hide DistinctSet;
    hide NoDuplicates;
    hide Contains;
    hide ShapesOf;
    hide SetWeight;
    MembersExact(s, t);
    MembersExact(t, s);
    DistinctShapes(s, t);
    DistinctShapes(t, s);
    DistinctParts(s);
    DistinctParts(t);
    if EqualSets(s, t) {
      EqualSetsBack(s, t);
      ShapesWithin(s, t);
      ShapesWithin(t, s);
    }
    if ShapesOf(s) == ShapesOf(t) {
      AsManyShapes(s.types);
      AsManyShapes(t.types);
      FoundByShape(s, t);
    }
  }

  lemma DistinctParts(s: TypeSet)
    requires DistinctSet(s)
    ensures NoDuplicates(s) && forall t <- s.types :: Distinct(t)
  {
  }

  lemma {:induction false} MembersExact(s: TypeSet, t: TypeSet)
    requires DistinctSet(s) && DistinctSet(t)
    ensures forall x, y :: x in s.types && y in t.types ==> (Equal(y, x) <==> ShapeOf(x) == ShapeOf(y))
    decreases SetWeight(s) + SetWeight(t), 1
  {
    hide ShapeOf;
    hide Equal;
    hide Distinct;
    forall x, y | x in s.types && y in t.types ensures Equal(y, x) <==> ShapeOf(x) == ShapeOf(y) { EqualExact(y, x); }
  }

  lemma {:induction false} DistinctShapes(s: TypeSet, t: TypeSet)
    requires DistinctSet(s)
    ensures forall i, j :: 0 <= i < j < |s.types| ==> ShapeOf(s.types[i]) != ShapeOf(s.types[j])
    decreases SetWeight(s) + SetWeight(t), 1
  {
    hide ShapeOf;
    hide Equal;
    hide Distinct;
    forall i, j | 0 <= i < j < |s.types| ensures ShapeOf(s.types[i]) != ShapeOf(s.types[j]) {
      TwoWeights(s.types, i, j);
      EqualExact(s.types[i], s.types[j]);
    }
  }

  lemma FoundByShape(s: TypeSet, t: TypeSet)
    requires ShapesOf(s) <= ShapesOf(t)
    requires forall x, y :: x in s.types && y in t.types && ShapeOf(x) == ShapeOf(y) ==> Equal(y, x)
    ensures forall x <- s.types :: Contains(t, x)
  {
    hide Equal;
    hide ShapeOf;
    forall x <- s.types ensures Contains(t, x) {
      assert ShapeOf(x) in ShapesOf(t);
      var y :| y in t.types && ShapeOf(y) == ShapeOf(x);
      assert Equal(y, x);
    }
  }

  lemma ShapesWithin(s: TypeSet, t: TypeSet)
    requires forall x <- s.types :: Contains(t, x)
    requires forall x, y :: x in s.types && y in t.types && Equal(y, x) ==> ShapeOf(x) == ShapeOf(y)
    ensures ShapesOf(s) <= ShapesOf(t)
  {
    hide Equal;
    hide ShapeOf;
    forall x <- s.types ensures ShapeOf(x) in ShapesOf(t) {
      assert Contains(t, x);
      var y :| y in t.types && Equal(y, x);
    }
  }

  // ----- exactly what a call is -----

  /** A call is accepted exactly when every member of the callee's union is a function that
      takes the arguments and returns something; its types are exactly theirs. */
  lemma CallExact(callee: seq<TypeInfo>, args: seq<TypeSet>)
    requires callee != []
    ensures CallTypes(callee, args) != [] <==>
      forall c <- callee :: c.FunctionType? && |c.params| == |args| && c.ret.types != []
        && forall i :: 0 <= i < |args| ==> AssignableSets(c.params[i], args[i])
    ensures CallTypes(callee, args) != [] ==>
      forall c, t :: c in callee && c.FunctionType? && t in c.ret.types ==> Contains(TypeSet(CallTypes(callee, args)), t)
    ensures forall t <- CallTypes(callee, args) :: exists c :: c in callee && c.FunctionType? && t in c.ret.types
  {
    hide AssignableSets;
    hide Contains;
    if forall c <- callee :: CallOne(c, args) != [] {
      ResultsExact(callee, args);
      assert callee[0] in callee && CallOne(callee[0], args) != [];
      var t := CallOne(callee[0], args)[0];
      assert Contains(TypeSet(Results(callee, args)), t);
      NothingContained(t);
    }
  }

  lemma NothingContained(t: TypeInfo)
    ensures !Contains(TypeSet([]), t)
  {
  }

  lemma {:induction false} ResultsExact(callee: seq<TypeInfo>, args: seq<TypeSet>)
    requires forall c <- callee :: CallOne(c, args) != []
    ensures forall c, t :: c in callee && t in CallOne(c, args) ==> Contains(TypeSet(Results(callee, args)), t)
    ensures forall t <- Results(callee, args) :: exists c :: c in callee && c.FunctionType? && t in c.ret.types
    decreases |callee|
  {
    hide Contains;
    hide AddedAll;
    hide ArgumentsFit;
    if callee != [] {
      var init, last := callee[..|callee| - 1], callee[|callee| - 1];
      assert callee == init + [last];
      ResultsExact(init, args);
      AddedAllHas(Results(init, args), CallOne(last, args));
    }
  }

  lemma {:induction false} AddedAllHas(s: seq<TypeInfo>, ts: seq<TypeInfo>)
    ensures forall t :: Contains(TypeSet(s), t) || t in ts ==> Contains(TypeSet(AddedAll(s, ts)), t)
    ensures forall t <- AddedAll(s, ts) :: t in s || t in ts
    decreases |ts|
  {
    hide Contains;
    hide Added;
    if ts != [] {
      var init, last := ts[..|ts| - 1], ts[|ts| - 1];
      assert ts == init + [last];
      AddedAllHas(s, init);
      AddedHas(AddedAll(s, init), last);
    }
  }

  lemma AddedHas(s: seq<TypeInfo>, t: TypeInfo)
    ensures forall x :: Contains(TypeSet(s), x) ==> Contains(TypeSet(Added(s, t)), x)
    ensures Contains(TypeSet(Added(s, t)), t)
    ensures forall x <- Added(s, t) :: x in s || x == t
  {
    hide Equal;
  }
}
