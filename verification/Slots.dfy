/** Slot reservation: the running count of the compiler against the true operand height. */
module Slots {
  import opened Bytecode
  import opened Values
  import opened Syntax
  import opened Codegen
  import opened CodeFacts

  /** What emitting an instruction adds to the running slot count. */
  function Effect(i: Instr): int {
    match i
    case Plain(op, operand) => StackEffect(op, operand)
    case MakeClosure(_, _) => 1
    case BreakHole => 0
  }

  function Net(ins: seq<Instr>): int {
    if ins == [] then 0 else Effect(ins[0]) + Net(ins[1..])
  }

  /** The largest value the running count takes when it starts at zero. */
  function Peak(ins: seq<Instr>): nat {
    if ins == [] then 0
    else var n := Effect(ins[0]) + Peak(ins[1..]); if n > 0 then n else 0
  }

  lemma {:induction false} Append(a: seq<Instr>, b: seq<Instr>)
    ensures Net(a + b) == Net(a) + Net(b)
    ensures Peak(a + b) == if Net(a) + Peak(b) > Peak(a) then Net(a) + Peak(b) else Peak(a)
    decreases a
  {
    hide Effect;
    if a == [] {
      assert a + b == b;
    } else {
      assert (a + b)[1..] == a[1..] + b;
      Append(a[1..], b);
    }
  }

  lemma Single(i: Instr)
    ensures Net([i]) == Effect(i)
    ensures Peak([i]) == if Effect(i) > 0 then Effect(i) else 0
  {
    hide Effect;
    assert [i][1..] == [];
  }

  /** Patching changes no count. */
  lemma {:induction false} Patched(ins: seq<Instr>, pos: nat, end: nat)
    ensures Net(Patch(ins, pos, end)) == Net(ins) && Peak(Patch(ins, pos, end)) == Peak(ins)
    decreases ins
  {
    hide Encode;
    if ins != [] {
      var p := Patch(ins, pos, end);
      assert p[1..] == Patch(ins[1..], pos + |Encode(ins[0])|, end);
      Patched(ins[1..], pos + |Encode(ins[0])|, end);
    }
  }

  lemma {:induction false} PeakCoversNet(a: seq<Instr>)
    ensures Net(a) <= Peak(a)
  {
    hide Effect;
    if a != [] { PeakCoversNet(a[1..]); }
  }

  // ----- the running count of a tree -----

  /** What code adds to the running count in the end, and at most on the way. */
  datatype Profile = Profile(net: int, peak: nat)
  {
    function Then(p: Profile): Profile {
      Profile(net + p.net, if net + p.peak > peak then net + p.peak else peak)
    }

    function Less(n: nat): Profile { Profile(net - n, peak) }
  }

  /** How many locals there were when the loop around began. */
  datatype Around = Outside | Inside(locals: nat, isExpr: bool)

  function AroundOf(l: LoopContext): Around {
    match l
    case NoLoop => Outside
    case InLoop(_, locals, isExpr) => Inside(locals, isExpr)
  }

  /** How many locals an exit drops. */
  function Dropped(n: nat, l: Around): nat {
    if l.Inside? && n >= l.locals then n - l.locals else 0
  }

  /** The running count over a tree with `n` locals around it. Exits take the locals they
      drop off the count although the code that follows still has them. */
  function ProfileOf(e: Expr, n: nat, l: Around): Profile {
    match e
    case Literal(_) => Profile(1, 1)
    case Variable(_) => Profile(1, 1)
    case Assign(_, rhs) => ProfileOf(rhs, n, l)
    case Unary(_, arg) => ProfileOf(arg, n, l)
    case Binary(_, left, right) => ProfileOf(left, n, l).Then(ProfileOf(right, n, l)).Less(1)
    case And(left, right) => ProfileOf(left, n, l).Less(1).Then(ProfileOf(right, n, l))
    case Or(left, right) => ProfileOf(left, n, l).Less(1).Then(ProfileOf(right, n, l))
    case If(cond, t, f) => ProfileOf(cond, n, l).Less(1).Then(ProfileBlock(t, n, l)).Less(1).Then(ProfileOf(f, n, l))
    case Block(b) => ProfileBlock(b, n, l)
    case Loop(b) => ProfileBlock(b, n, Inside(n, true)).Less(1)
    case Call(f, args) => ProfileOf(f, n, l).Then(ProfileArgs(args, n, l)).Less(ArgCount(args))
    case Fn(_) => Profile(1, 1)
  }

  function ProfileArgs(args: Args, n: nat, l: Around): Profile {
    match args
    case NoArgs => Profile(0, 0)
    case Arg(first, rest) => ProfileOf(first, n, l).Then(ProfileArgs(rest, n, l))
  }

  function ProfileBlock(b: Body, n: nat, l: Around): Profile
    decreases b, 1
  {
    ProfileBody(b, n, l).Less(LetCount(b))
  }

  function ProfileBody(b: Body, n: nat, l: Around): Profile
    decreases b, 0
  {
    match b
    case Done => Profile(1, 1)
    case Result(e) => ProfileOf(e, n, l)
    case Let(_, init, rest) => ProfileOf(init, n, l).Then(ProfileBody(rest, n + 1, l))
    case Then(s, rest) => ProfileStmt(s, n, l).Then(ProfileBody(rest, n, l))
  }

  function ProfileStmt(s: Stmt, n: nat, l: Around): Profile {
    match s
    case Discard(e) => ProfileOf(e, n, l).Less(1)
    case While(cond, body) =>
      ProfileOf(cond, n, Inside(n, false)).Less(1).Then(ProfileBlock(body, n, Inside(n, false))).Less(2)
    case Break(value) =>
      var p := if value.Some? then ProfileOf(value.value, n, l) else if l.Inside? && l.isExpr then Profile(1, 1) else Profile(0, 0);
      p.Less(Dropped(n, l))
    case Continue => Profile(0, 0).Less(Dropped(n, l))
    case Return(e) => ProfileOf(e, n, l)
  }

  function ProfileScript(p: Script): Profile {
    match p
    case End => Profile(1, 1)
    case Define(_, init, next) => ProfileOf(init, 1, Outside).Less(1).Then(ProfileScript(next))
    case Run(s, next) => ProfileStmt(s, 1, Outside).Then(ProfileScript(next))
  }

  ghost predicate Has(code: seq<Instr>, p: Profile) {
    Net(code) == p.net && Peak(code) == p.peak
  }

  lemma Joined(a: seq<Instr>, p: Profile, b: seq<Instr>, q: Profile)
    requires Has(a, p) && Has(b, q)
    ensures Has(a + b, p.Then(q))
  {
    Append(a, b);
  }

  /** An instruction that takes `n` off the count. */
  lemma Lowered(a: seq<Instr>, p: Profile, i: Instr, n: nat)
    requires Has(a, p) && Effect(i) == 0 - n
    ensures Has(a + [i], p.Less(n))
  {
    hide Effect;
    PeakCoversNet(a);
    Append(a, [i]);
    Single(i);
  }

  lemma BranchProfile(a: seq<Instr>, p: Profile, i: Instr)
    requires Has(a, p) && Effect(i) == 0
    ensures Has(a + [i] + One(POP), p.Less(1))
  {
    hide Has;
    Lowered(a, p, i, 0);
    Lowered(a + [i], p.Less(0), Plain(POP, 0), 1);
  }

  lemma LoadProfile(i: Instr)
    requires Effect(i) == 1
    ensures Has([i], Profile(1, 1))
  {
    Single(i);
  }

  lemma EndScopeProfile(a: seq<Instr>, p: Profile, n: nat)
    requires Has(a, p)
    ensures Has(a + EndScope(n), p.Less(n))
  {
    hide Has;
    if n == 0 {
      assert a + EndScope(0) == a && p.Less(0) == p;
    } else {
      Lowered(a, p, VarLength(END_SCOPE, n), n);
    }
  }

  lemma {:induction false} PopsProfile(n: nat)
    ensures Has(Pops(n), Profile(0, 0).Less(n))
    decreases n
  {
    if n > 0 {
      PopsProfile(n - 1);
      Single(Plain(POP, 0));
      Append(One(POP), Pops(n - 1));
      PeakCoversNet(Pops(n - 1));
    }
  }

  lemma PatchedProfile(ins: seq<Instr>, p: Profile, pos: nat, end: nat)
    requires Has(ins, p)
    ensures Has(Patch(ins, pos, end), p)
  {
    Patched(ins, pos, end);
  }

  /** The code emitted for an expression counts exactly as its tree says. */
  lemma {:induction false} ExprProfile(e: Expr, names: seq<string>, k: seq<Value>, c: Ctx, pos: nat)
    requires GenExpr(e, names, k, c, pos).ok
    ensures Has(GenExpr(e, names, k, c, pos).code, ProfileOf(e, |names|, AroundOf(c.loop)))
    decreases e, 2
  {
    hide Size;
    hide Has;
    hide Effect;
    hide Profile.Then;
    hide AddConstant;
    hide GenBlock;
    match e
    case Literal(v) =>
      LiteralEffect(k, v);
      LoadProfile(GenLiteral(k, v).code[0]);
    case Variable(name) =>
      VariableEffect(name, names, k, c);
      LoadProfile(GenVariable(GET_LOCAL, GET_GLOBAL, name, names, k, c).code[0]);
    case Assign(name, rhs) =>
      ExprProfile(rhs, names, k, c, pos);
      var r := GenExpr(rhs, names, k, c, pos);
      VariableEffect(name, names, r.consts, c);
      Lowered(r.code, ProfileOf(rhs, |names|, AroundOf(c.loop)), GenVariable(SET_LOCAL, SET_GLOBAL, name, names, r.consts, c).code[0], 0);
    case Unary(op, arg) =>
      ExprProfile(arg, names, k, c, pos);
      UnaryEffect(op);
      Lowered(GenExpr(arg, names, k, c, pos).code, ProfileOf(arg, |names|, AroundOf(c.loop)), Plain(UnaryOpcode(op), 0), 0);
    case Block(b) => BlockProfile(b, names, k, c, pos);
    case Fn(def) =>
      assert Effect(MakeClosure(AddConstant(k, Function(def)).0, [])) == 1 by { ClosureEffect(AddConstant(k, Function(def)).0); }
      LoadProfile(MakeClosure(AddConstant(k, Function(def)).0, []));
    case _ => PartsProfile(e, names, k, c, pos);
  }

  lemma LiteralEffect(k: seq<Value>, v: Value)
    ensures |GenLiteral(k, v).code| == 1 && Effect(GenLiteral(k, v).code[0]) == 1
    ensures GenLiteral(k, v).code == [GenLiteral(k, v).code[0]]
  {
    hide AddConstant;
  }

  lemma VariableEffect(name: string, names: seq<string>, k: seq<Value>, c: Ctx)
    ensures
      var get, set_ := GenVariable(GET_LOCAL, GET_GLOBAL, name, names, k, c), GenVariable(SET_LOCAL, SET_GLOBAL, name, names, k, c);
      && (get.ok ==> |get.code| == 1 && get.code == [get.code[0]] && Effect(get.code[0]) == 1)
      && (set_.ok ==> |set_.code| == 1 && set_.code == [set_.code[0]] && Effect(set_.code[0]) == 0)
  {
  }

  lemma UnaryEffect(op: UnaryOp)
    ensures Effect(Plain(UnaryOpcode(op), 0)) == 0
  {
  }

  lemma BinaryEffect(op: BinaryOp)
    ensures Effect(Plain(BinaryOpcode(op), 0)) == -1
  {
  }

  lemma ClosureEffect(i: nat)
    ensures Effect(MakeClosure(i, [])) == 1
  {
  }

  lemma {:induction false} PartsProfile(e: Expr, names: seq<string>, k: seq<Value>, c: Ctx, pos: nat)
    requires e.Binary? || e.And? || e.Or? || e.If? || e.Call? || e.Loop?
    requires GenExpr(e, names, k, c, pos).ok
    ensures Has(GenExpr(e, names, k, c, pos).code, ProfileOf(e, |names|, AroundOf(c.loop)))
    decreases e, 1
  {
    hide GenExpr;
    hide Has;
    hide ProfileOf;
    match e
    case Binary(_, _, _) => BinaryProfile(e, names, k, c, pos);
    case Call(_, _) => CallProfile(e, names, k, c, pos);
    case If(_, _, _) => IfProfile(e, names, k, c, pos);
    case Loop(_) => LoopProfile(e, names, k, c, pos);
    case _ => AndProfile(e, names, k, c, pos);
  }

  lemma {:induction false} BinaryProfile(e: Expr, names: seq<string>, k: seq<Value>, c: Ctx, pos: nat)
    requires e.Binary? && GenExpr(e, names, k, c, pos).ok
    ensures Has(GenExpr(e, names, k, c, pos).code, ProfileOf(e, |names|, AroundOf(c.loop)))
    decreases e, 0
  {
    hide Size;
    hide GenExpr;
    hide Has;
    hide Effect;
    hide Profile.Then;
    var l := GenExpr(e.left, names, k, c, pos);
    var r := GenExpr(e.right, names, l.consts, c, pos + Size(l.code));
    var p, q := ProfileOf(e.left, |names|, AroundOf(c.loop)), ProfileOf(e.right, |names|, AroundOf(c.loop));
    BinaryCode(e, names, k, c, pos, l, r);
    ExprProfile(e.left, names, k, c, pos);
    ExprProfile(e.right, names, l.consts, c, pos + Size(l.code));
    BinaryEffect(e.bop);
    Joined(l.code, p, r.code, q);
    Lowered(l.code + r.code, p.Then(q), Plain(BinaryOpcode(e.bop), 0), 1);
  }

  lemma {:induction false} CallProfile(e: Expr, names: seq<string>, k: seq<Value>, c: Ctx, pos: nat)
    requires e.Call? && GenExpr(e, names, k, c, pos).ok
    ensures Has(GenExpr(e, names, k, c, pos).code, ProfileOf(e, |names|, AroundOf(c.loop)))
    decreases e, 0
  {
    hide Size;
    hide GenExpr;
    hide GenArgs;
    hide Has;
    hide Profile.Then;
    var f := GenExpr(e.callee, names, k, c, pos);
    var a := GenArgs(e.args, names, f.consts, c, pos + Size(f.code));
    var p, q := ProfileOf(e.callee, |names|, AroundOf(c.loop)), ProfileArgs(e.args, |names|, AroundOf(c.loop));
    CallCode(e, names, k, c, pos, f, a);
    ExprProfile(e.callee, names, k, c, pos);
    ArgsProfile(e.args, names, f.consts, c, pos + Size(f.code));
    Joined(f.code, p, a.code, q);
    Lowered(f.code + a.code, p.Then(q), Plain(CALL, ArgCount(e.args)), ArgCount(e.args));
  }

  lemma {:induction false} AndProfile(e: Expr, names: seq<string>, k: seq<Value>, c: Ctx, pos: nat)
    requires (e.And? || e.Or?) && GenExpr(e, names, k, c, pos).ok
    ensures Has(GenExpr(e, names, k, c, pos).code, ProfileOf(e, |names|, AroundOf(c.loop)))
    decreases e, 0
  {
    hide Size;
    hide GenExpr;
    hide Has;
    hide Profile.Then;
    var q := PartsOfAnd(e, names, k, c, pos);
    var p, r := ProfileOf(e.left, |names|, AroundOf(c.loop)), ProfileOf(e.right, |names|, AroundOf(c.loop));
    if e.And? { AndCode(e, names, k, c, pos, q); } else { OrCode(e, names, k, c, pos, q); }
    ExprProfile(e.left, names, k, c, pos);
    ExprProfile(e.right, names, q.left.consts, c, q.mid + q.glueSize);
    if e.And? {
      BranchProfile(q.left.code, p, Plain(JUMP_IF_FALSE, q.d));
      assert q.left.code + q.glue == q.left.code + [Plain(JUMP_IF_FALSE, q.d)] + One(POP);
    } else {
      Lowered(q.left.code, p, Plain(JUMP_IF_FALSE, 3), 0);
      BranchProfile(q.left.code + [Plain(JUMP_IF_FALSE, 3)], p.Less(0), Plain(JUMP, q.d));
      assert q.left.code + q.glue == q.left.code + [Plain(JUMP_IF_FALSE, 3)] + [Plain(JUMP, q.d)] + One(POP);
    }
    Joined(q.left.code + q.glue, p.Less(1), q.right.code, r);
  }

  lemma {:induction false} IfProfile(e: Expr, names: seq<string>, k: seq<Value>, c: Ctx, pos: nat)
    requires e.If? && GenExpr(e, names, k, c, pos).ok
    ensures Has(GenExpr(e, names, k, c, pos).code, ProfileOf(e, |names|, AroundOf(c.loop)))
    decreases e, 0
  {
    hide Size;
    hide GenExpr;
    hide GenBlock;
    hide Has;
    hide Profile.Then;
    hide ProfileBlock;
    var q := PartsOfIf(e, names, k, c, pos);
    var n, l := |names|, AroundOf(c.loop);
    IfCode(e, names, k, c, pos, q);
    ExprProfile(e.cond, names, k, c, pos);
    BlockProfile(e.thenBody, names, q.cond.consts, c, q.mid + 4);
    ExprProfile(e.elseExpr, names, q.thn.consts, c, q.mid + 3 + q.dt + 1);
    var tested, chosen := q.cond.code + [Plain(JUMP_IF_FALSE, q.dt)] + One(POP), ProfileOf(e.cond, n, l).Less(1).Then(ProfileBlock(e.thenBody, n, l));
    BranchProfile(q.cond.code, ProfileOf(e.cond, n, l), Plain(JUMP_IF_FALSE, q.dt));
    Joined(tested, ProfileOf(e.cond, n, l).Less(1), q.thn.code, ProfileBlock(e.thenBody, n, l));
    BranchProfile(tested + q.thn.code, chosen, Plain(JUMP, q.df));
    Joined(tested + q.thn.code + [Plain(JUMP, q.df)] + One(POP), chosen.Less(1), q.els.code, ProfileOf(e.elseExpr, n, l));
  }

  lemma {:induction false} LoopProfile(e: Expr, names: seq<string>, k: seq<Value>, c: Ctx, pos: nat)
    requires e.Loop? && GenExpr(e, names, k, c, pos).ok
    ensures Has(GenExpr(e, names, k, c, pos).code, ProfileOf(e, |names|, AroundOf(c.loop)))
    decreases e, 0
  {
    hide Size;
    hide GenExpr;
    hide GenBlock;
    hide Has;
    hide Patch;
    hide ProfileBlock;
    var c' := c.(loop := InLoop(pos, |names|, true));
    var b := GenBlock(e.body, names, k, c', pos);
    var p := ProfileBlock(e.body, |names|, Inside(|names|, true));
    LoopCode(e, names, k, c, pos, b);
    BlockProfile(e.body, names, k, c', pos);
    var d := Size(b.code) + 4;
    Lowered(b.code, p, Plain(POP, 0), 1);
    Lowered(b.code + One(POP), p.Less(1), Plain(LOOP, d), 0);
    PatchedProfile(b.code + One(POP) + [Plain(LOOP, d)], p.Less(1).Less(0), pos, pos + d);
  }

  lemma {:induction false} ArgsProfile(args: Args, names: seq<string>, k: seq<Value>, c: Ctx, pos: nat)
    requires GenArgs(args, names, k, c, pos).ok
    ensures Has(GenArgs(args, names, k, c, pos).code, ProfileArgs(args, |names|, AroundOf(c.loop)))
    decreases args, 0
  {
    hide Size;
    hide GenExpr;
    hide Profile.Then;
    if args.Arg? {
      var f := GenExpr(args.first, names, k, c, pos);
      var r := GenArgs(args.rest, names, f.consts, c, pos + Size(f.code));
      ArgsCode(args, names, k, c, pos, f, r);
      hide Has;
      ExprProfile(args.first, names, k, c, pos);
      ArgsProfile(args.rest, names, f.consts, c, pos + Size(f.code));
      Joined(f.code, ProfileOf(args.first, |names|, AroundOf(c.loop)), r.code, ProfileArgs(args.rest, |names|, AroundOf(c.loop)));
    }
  }

  lemma {:induction false} BlockProfile(b: Body, names: seq<string>, k: seq<Value>, c: Ctx, pos: nat)
    requires GenBlock(b, names, k, c, pos).ok
    ensures Has(GenBlock(b, names, k, c, pos).code, ProfileBlock(b, |names|, AroundOf(c.loop)))
    decreases b, 1
  {
    hide GenBody;
    hide Has;
    hide EndScope;
    var c' := c.(scopeStart := |names|);
    BodyProfile(b, names, k, c', pos);
    EndScopeProfile(GenBody(b, names, k, c', pos).code, ProfileBody(b, |names|, AroundOf(c.loop)), LetCount(b));
  }

  lemma {:induction false} BodyProfile(b: Body, names: seq<string>, k: seq<Value>, c: Ctx, pos: nat)
    requires GenBody(b, names, k, c, pos).ok
    ensures Has(GenBody(b, names, k, c, pos).code, ProfileBody(b, |names|, AroundOf(c.loop)))
    decreases b, 0
  {
    hide Size;
    hide GenExpr;
    hide GenStmt;
    hide Has;
    hide Effect;
    hide Profile.Then;
    var n, l := |names|, AroundOf(c.loop);
    match b
    case Done =>
      assert Effect(Plain(NIL, 0)) == 1 by { NilEffect(); }
      LoadProfile(Plain(NIL, 0));
    case Result(e) => ExprProfile(e, names, k, c, pos);
    case Let(name, init, rest) =>
      var i := GenExpr(init, names, k, c, pos);
      var r := GenBody(rest, names + [name], i.consts, c, pos + Size(i.code));
      LetCode(b, names, k, c, pos, i, r);
      ExprProfile(init, names, k, c, pos);
      BodyProfile(rest, names + [name], i.consts, c, pos + Size(i.code));
      Joined(i.code, ProfileOf(init, n, l), r.code, ProfileBody(rest, n + 1, l));
    case Then(s, rest) =>
      var d := GenStmt(s, names, k, c, pos);
      var r := GenBody(rest, names, d.consts, c, pos + Size(d.code));
      SeqCode(b, names, k, c, pos, d, r);
      StmtProfile(s, names, k, c, pos);
      BodyProfile(rest, names, d.consts, c, pos + Size(d.code));
      Joined(d.code, ProfileStmt(s, n, l), r.code, ProfileBody(rest, n, l));
  }

  lemma NilEffect()
    ensures Effect(Plain(NIL, 0)) == 1
  {
  }

  lemma {:induction false} StmtProfile(s: Stmt, names: seq<string>, k: seq<Value>, c: Ctx, pos: nat)
    requires GenStmt(s, names, k, c, pos).ok
    ensures Has(GenStmt(s, names, k, c, pos).code, ProfileStmt(s, |names|, AroundOf(c.loop)))
    decreases s, 1
  {
    hide Size;
    hide GenExpr;
    hide Has;
    hide GenBlock;
    hide Profile.Then;
    hide Patch;
    match s
    case Discard(e) =>
      ExprProfile(e, names, k, c, pos);
      Lowered(GenExpr(e, names, k, c, pos).code, ProfileOf(e, |names|, AroundOf(c.loop)), Plain(POP, 0), 1);
    case Return(e) =>
      ExprProfile(e, names, k, c, pos);
      Lowered(GenExpr(e, names, k, c, pos).code, ProfileOf(e, |names|, AroundOf(c.loop)), Plain(RETURN, 0), 0);
    case While(_, _) => WhileProfile(s, names, k, c, pos);
    case Break(_) => BreakProfile(s, names, k, c, pos);
    case Continue =>
      var n := |names| - c.loop.locals;
      PopsProfile(n);
      Lowered(Pops(n), Profile(0, 0).Less(n), Plain(LOOP, pos + n + 3 - c.loop.start), 0);
  }

  lemma {:induction false} BreakProfile(s: Stmt, names: seq<string>, k: seq<Value>, c: Ctx, pos: nat)
    requires s.Break? && GenStmt(s, names, k, c, pos).ok
    ensures Has(GenStmt(s, names, k, c, pos).code, ProfileStmt(s, |names|, AroundOf(c.loop)))
    decreases s, 0
  {
    hide Size;
    hide GenExpr;
    hide Has;
    hide Pops;
    hide EndScope;
    hide GenLiteral;
    var n := |names| - c.loop.locals;
    if c.loop.isExpr {
      var r := if s.value.None? then GenLiteral(k, Nil) else GenExpr(s.value.value, names, k, c, pos);
      var p := if s.value.None? then Profile(1, 1) else ProfileOf(s.value.value, |names|, AroundOf(c.loop));
      if s.value.None? {
        LiteralEffect(k, Nil);
        LoadProfile(r.code[0]);
      } else {
        ExprProfile(s.value.value, names, k, c, pos);
      }
      EndScopeProfile(r.code, p, n);
      Lowered(r.code + EndScope(n), p.Less(n), BreakHole, 0);
    } else {
      PopsProfile(n);
      Lowered(Pops(n), Profile(0, 0).Less(n), BreakHole, 0);
    }
  }

  lemma {:induction false} WhileProfile(s: Stmt, names: seq<string>, k: seq<Value>, c: Ctx, pos: nat)
    requires s.While? && GenStmt(s, names, k, c, pos).ok
    ensures Has(GenStmt(s, names, k, c, pos).code, ProfileStmt(s, |names|, AroundOf(c.loop)))
    decreases s, 0
  {
    hide Size;
    hide GenExpr;
    hide GenBlock;
    hide GenStmt;
    hide Has;
    hide Patch;
    hide Profile.Then;
    hide ProfileBlock;
    var c' := c.(loop := InLoop(pos, |names|, false));
    var n, l := |names|, Inside(|names|, false);
    var q := PiecesOfWhile(s, names, k, c, pos);
    WhileCode(s, names, k, c, pos, q);
    ExprProfile(s.cond, names, k, c', pos);
    BlockProfile(s.body, names, q.cond.consts, c', pos + Size(q.cond.code) + 4);
    var head, whole := q.cond.code + [Plain(JUMP_IF_FALSE, q.dx)] + One(POP), ProfileOf(s.cond, n, l).Less(1).Then(ProfileBlock(s.body, n, l));
    BranchProfile(q.cond.code, ProfileOf(s.cond, n, l), Plain(JUMP_IF_FALSE, q.dx));
    Joined(head, ProfileOf(s.cond, n, l).Less(1), q.body.code, ProfileBlock(s.body, n, l));
    Lowered(head + q.body.code, whole, Plain(POP, 0), 1);
    BranchProfile(head + q.body.code + One(POP), whole.Less(1), Plain(LOOP, q.d));
    PatchedProfile(q.inner, whole.Less(1).Less(1), pos, pos + q.d + 1);
  }

  lemma EndProfile(p: Script, k: seq<Value>, globals: map<string, nat>, pos: nat)
    requires p.End?
    ensures Has(GenScript(p, k, globals, pos).code, ProfileScript(p))
  {
    hide Has;
    LoadProfile(Plain(NIL, 0));
    Lowered(One(NIL), Profile(1, 1), Plain(RETURN, 0), 0);
  }

  lemma {:induction false} ScriptProfile(p: Script, k: seq<Value>, globals: map<string, nat>, pos: nat)
    requires GenScript(p, k, globals, pos).ok
    ensures Has(GenScript(p, k, globals, pos).code, ProfileScript(p))
    decreases p
  {
    hide Size;
    hide GenExpr;
    hide GenStmt;
    hide Has;
    hide Profile.Then;
    var c := Ctx(globals, false, 0, NoLoop);
    match p
    case End => EndProfile(p, k, globals, pos);
    case Define(name, init, next) =>
      var i := GenExpr(init, [""], k, c, pos);
      var def := VarLength(DEFINE_GLOBAL, globals[name]);
      var r := GenScript(next, i.consts, globals, pos + Size(i.code) + Size([def]));
      ExprProfile(init, [""], k, c, pos);
      Lowered(i.code, ProfileOf(init, 1, Outside), def, 1);
      ScriptProfile(next, i.consts, globals, pos + Size(i.code) + Size([def]));
      Joined(i.code + [def], ProfileOf(init, 1, Outside).Less(1), r.code, ProfileScript(next));
    case Run(s, next) =>
      var d := GenStmt(s, [""], k, c, pos);
      var r := GenScript(next, d.consts, globals, pos + Size(d.code));
      StmtProfile(s, [""], k, c, pos);
      ScriptProfile(next, d.consts, globals, pos + Size(d.code));
      Joined(d.code, ProfileStmt(s, 1, Outside), r.code, ProfileScript(next));
  }

  // ----- functions -----

  /** The slots a compiled function reserves. */
  function MaxSlots(def: FnDef, globals: map<string, nat>): nat {
    Peak(GenFunction(def, globals).code)
  }

  function ProfileFunction(def: FnDef): Profile {
    ProfileBody(def.body, 1 + |def.params|, Outside)
  }

  /** What is reserved is exactly the peak of the tree's running count. */
  lemma ReservedExactly(def: FnDef, globals: map<string, nat>)
    requires GenFunction(def, globals).ok
    ensures MaxSlots(def, globals) == ProfileFunction(def).peak
    ensures HeightBody(def.body) <= MaxSlots(def, globals) <==> HeightBody(def.body) <= ProfileFunction(def).peak
  {
    hide GenBody;
    hide ProfileBody;
    hide Net;
    hide Peak;
    var names, c := [""] + def.params, Ctx(globals, true, 1, NoLoop);
    BodyProfile(def.body, names, [], c, 0);
    Lowered(GenBody(def.body, names, [], c, 0).code, ProfileFunction(def), Plain(RETURN, 0), 0);
  }

  // ----- the running count against the true operand height -----

  /** How far the running count may fall short of the true height, and exceed it. */
  datatype Drift = Drift(short: nat, over: nat)
  {
    function Plus(d: Drift): Drift { Drift(short + d.short, over + d.over) }
  }

  const NO_DRIFT := Drift(0, 0)

  /** Each `while` and each `loop` is one short once it is passed, each `return` one over,
      and each exit short by the locals it drops. */
  function DriftOf(e: Expr, n: nat, l: Around): Drift {
    match e
    case Literal(_) => NO_DRIFT
    case Variable(_) => NO_DRIFT
    case Assign(_, rhs) => DriftOf(rhs, n, l)
    case Unary(_, arg) => DriftOf(arg, n, l)
    case Binary(_, left, right) => DriftOf(left, n, l).Plus(DriftOf(right, n, l))
    case And(left, right) => DriftOf(left, n, l).Plus(DriftOf(right, n, l))
    case Or(left, right) => DriftOf(left, n, l).Plus(DriftOf(right, n, l))
    case If(cond, t, f) => DriftOf(cond, n, l).Plus(DriftBody(t, n, l)).Plus(DriftOf(f, n, l))
    case Block(b) => DriftBody(b, n, l)
    case Loop(b) => Drift(1, 0).Plus(DriftBody(b, n, Inside(n, true)))
    case Call(f, args) => DriftOf(f, n, l).Plus(DriftArgs(args, n, l))
    case Fn(_) => NO_DRIFT
  }

  function DriftArgs(args: Args, n: nat, l: Around): Drift {
    match args
    case NoArgs => NO_DRIFT
    case Arg(first, rest) => DriftOf(first, n, l).Plus(DriftArgs(rest, n, l))
  }

  function DriftBody(b: Body, n: nat, l: Around): Drift {
    match b
    case Done => NO_DRIFT
    case Result(e) => DriftOf(e, n, l)
    case Let(_, init, rest) => DriftOf(init, n, l).Plus(DriftBody(rest, n + 1, l))
    case Then(s, rest) => DriftStmt(s, n, l).Plus(DriftBody(rest, n, l))
  }

  function DriftStmt(s: Stmt, n: nat, l: Around): Drift {
    match s
    case Discard(e) => DriftOf(e, n, l)
    case While(cond, body) => Drift(1, 0).Plus(DriftOf(cond, n, Inside(n, false))).Plus(DriftBody(body, n, Inside(n, false)))
    case Break(value) =>
      var k := Dropped(n, l);
      if value.None? && !(l.Inside? && l.isExpr) then Drift(k, 0)
      else
        var left := if k == 0 then Drift(0, 1) else Drift(k - 1, 0);
        left.Plus(if value.Some? then DriftOf(value.value, n, l) else NO_DRIFT)
    case Continue => Drift(Dropped(n, l), 0)
    case Return(e) => Drift(0, 1).Plus(DriftOf(e, n, l))
  }

  function DriftScript(p: Script): Drift {
    match p
    case End => NO_DRIFT
    case Define(_, init, next) => DriftOf(init, 1, Outside).Plus(DriftScript(next))
    case Run(s, next) => DriftStmt(s, 1, Outside).Plus(DriftScript(next))
  }

  /** A part that really leaves `leaves` slots and reaches `height`. */
  ghost predicate Near(p: Profile, leaves: nat, height: nat, d: Drift) {
    && leaves - d.short <= p.net <= leaves + d.over
    && height <= p.peak + d.short && p.peak <= height + d.over
  }

  /** A statement leaves nothing; a height of one never matters beside what follows. */
  ghost predicate NearStmt(p: Profile, height: nat, d: Drift) {
    && 0 - d.short <= p.net <= d.over
    && (height <= p.peak + d.short || height <= 1) && p.peak <= height + d.over
  }

  lemma NearThen(p: Profile, la: nat, ha: nat, d: Drift, q: Profile, lb: nat, hb: nat, e: Drift)
    requires Near(p, la, ha, d) && Near(q, lb, hb, e)
    ensures Near(p.Then(q), la + lb, Max(ha, la + hb), d.Plus(e))
  {
  }

  lemma NearLess(p: Profile, leaves: nat, h: nat, d: Drift, k: nat)
    requires Near(p, leaves, h, d) && k <= leaves
    ensures Near(p.Less(k), leaves - k, h, d)
  {
  }

  lemma NearThenStmt(p: Profile, ha: nat, d: Drift, q: Profile, lb: nat, hb: nat, e: Drift)
    requires NearStmt(p, ha, d) && Near(q, lb, hb, e) && lb >= 1 && hb >= 1
    ensures Near(p.Then(q), lb, Max(ha, hb), d.Plus(e))
  {
  }

  lemma NearNothing()
    ensures Near(Profile(0, 0), 0, 0, NO_DRIFT)
  {
  }

  lemma NearWhile(p: Profile, ha: nat, d: Drift, q: Profile, hb: nat, e: Drift)
    requires Near(p, 1, ha, d) && Near(q, 1, hb, e)
    ensures NearStmt(p.Less(1).Then(q).Less(2), Max(ha, hb), Drift(1, 0).Plus(d).Plus(e))
  {
  }

  lemma NearDiscard(p: Profile, h: nat, d: Drift)
    requires Near(p, 1, h, d)
    ensures NearStmt(p.Less(1), h, d) && NearStmt(p, h, Drift(0, 1).Plus(d))
  {
  }

  lemma NearExit(p: Profile, h: nat, d: Drift, k: nat)
    requires Near(p, 1, h, d)
    ensures NearStmt(p.Less(k), h, (if k == 0 then Drift(0, 1) else Drift(k - 1, 0)).Plus(d))
  {
  }

  lemma NearBare(k: nat)
    ensures NearStmt(Profile(0, 0).Less(k), 0, Drift(k, 0)) && NearStmt(Profile(0, 0).Less(k), 1, Drift(k, 0))
    ensures NearStmt(Profile(1, 1).Less(k), 1, (if k == 0 then Drift(0, 1) else Drift(k - 1, 0)).Plus(NO_DRIFT))
  {
  }

  lemma NearLoop(p: Profile, h: nat, d: Drift)
    requires Near(p, 1, h, d)
    ensures Near(p.Less(1), 1, h, Drift(1, 0).Plus(d))
  {
  }

  lemma {:induction false} ExprNear(e: Expr, n: nat, l: Around)
    ensures Near(ProfileOf(e, n, l), 1, Height(e), DriftOf(e, n, l))
    decreases e, 2
  {
    hide Near;
    hide Profile.Then;
    hide Profile.Less;
    hide Drift.Plus;
    hide ProfileBlock;
    match e
    case Literal(_) => LeafNear(e, n, l);
    case Variable(_) => LeafNear(e, n, l);
    case Fn(_) => LeafNear(e, n, l);
    case Assign(_, rhs) => ExprNear(rhs, n, l);
    case Unary(_, arg) => ExprNear(arg, n, l);
    case Block(b) => BlockNear(b, n, l);
    case Loop(b) =>
      BlockNear(b, n, Inside(n, true));
      NearLoop(ProfileBlock(b, n, Inside(n, true)), HeightBody(b), DriftBody(b, n, Inside(n, true)));
    case _ => PartsNear(e, n, l);
  }

  lemma LeafNear(e: Expr, n: nat, l: Around)
    requires e.Literal? || e.Variable? || e.Fn?
    ensures Near(ProfileOf(e, n, l), 1, Height(e), DriftOf(e, n, l))
  {
  }

  lemma {:induction false} PartsNear(e: Expr, n: nat, l: Around)
    requires e.Binary? || e.And? || e.Or? || e.If? || e.Call?
    ensures Near(ProfileOf(e, n, l), 1, Height(e), DriftOf(e, n, l))
    decreases e, 1
  {
    hide Near;
    hide Profile.Then;
    hide Profile.Less;
    hide Drift.Plus;
    hide ProfileBlock;
    match e
    case Binary(_, left, right) =>
      ExprNear(left, n, l);
      ExprNear(right, n, l);
      NearThen(ProfileOf(left, n, l), 1, Height(left), DriftOf(left, n, l), ProfileOf(right, n, l), 1, Height(right), DriftOf(right, n, l));
      NearLess(ProfileOf(left, n, l).Then(ProfileOf(right, n, l)), 2, Height(e), DriftOf(e, n, l), 1);
    case And(left, right) => AndNear(e, left, right, n, l);
    case Or(left, right) => AndNear(e, left, right, n, l);
    case If(cond, t, f) =>
      ExprNear(cond, n, l);
      BlockNear(t, n, l);
      ExprNear(f, n, l);
      var tested := ProfileOf(cond, n, l).Less(1);
      var chosen, h := tested.Then(ProfileBlock(t, n, l)), Max(Height(cond), HeightBody(t));
      var d := DriftOf(cond, n, l).Plus(DriftBody(t, n, l));
      NearLess(ProfileOf(cond, n, l), 1, Height(cond), DriftOf(cond, n, l), 1);
      NearThen(tested, 0, Height(cond), DriftOf(cond, n, l), ProfileBlock(t, n, l), 1, HeightBody(t), DriftBody(t, n, l));
      NearLess(chosen, 1, h, d, 1);
      NearThen(chosen.Less(1), 0, h, d, ProfileOf(f, n, l), 1, Height(f), DriftOf(f, n, l));
    case Call(f, args) =>
      ExprNear(f, n, l);
      ArgsNear(args, n, l);
      NearThen(ProfileOf(f, n, l), 1, Height(f), DriftOf(f, n, l), ProfileArgs(args, n, l), ArgCount(args), HeightArgs(args), DriftArgs(args, n, l));
      NearLess(ProfileOf(f, n, l).Then(ProfileArgs(args, n, l)), 1 + ArgCount(args), Height(e), DriftOf(e, n, l), ArgCount(args));
  }

  lemma {:induction false} AndNear(e: Expr, left: Expr, right: Expr, n: nat, l: Around)
    requires e == And(left, right) || e == Or(left, right)
    ensures Near(ProfileOf(e, n, l), 1, Height(e), DriftOf(e, n, l))
    decreases e, 0
  {
    hide Near;
    hide Profile.Then;
    hide Profile.Less;
    hide Drift.Plus;
    ExprNear(left, n, l);
    ExprNear(right, n, l);
    NearLess(ProfileOf(left, n, l), 1, Height(left), DriftOf(left, n, l), 1);
    NearThen(ProfileOf(left, n, l).Less(1), 0, Height(left), DriftOf(left, n, l), ProfileOf(right, n, l), 1, Height(right), DriftOf(right, n, l));
  }

  lemma {:induction false} ArgsNear(args: Args, n: nat, l: Around)
    ensures Near(ProfileArgs(args, n, l), ArgCount(args), HeightArgs(args), DriftArgs(args, n, l))
    decreases args, 1
  {
    NearNothing();
    hide Near;
    hide Profile.Then;
    hide Drift.Plus;
    if args.Arg? {
      ExprNear(args.first, n, l);
      ArgsNear(args.rest, n, l);
      NearThen(ProfileOf(args.first, n, l), 1, Height(args.first), DriftOf(args.first, n, l),
               ProfileArgs(args.rest, n, l), ArgCount(args.rest), HeightArgs(args.rest), DriftArgs(args.rest, n, l));
    }
  }

  lemma {:induction false} BlockNear(b: Body, n: nat, l: Around)
    ensures Near(ProfileBlock(b, n, l), 1, HeightBody(b), DriftBody(b, n, l))
    decreases b, 1
  {
    hide Near;
    BodyNear(b, n, l);
    NearLess(ProfileBody(b, n, l), 1 + LetCount(b), HeightBody(b), DriftBody(b, n, l), LetCount(b));
  }

  lemma {:induction false} BodyNear(b: Body, n: nat, l: Around)
    ensures Near(ProfileBody(b, n, l), 1 + LetCount(b), HeightBody(b), DriftBody(b, n, l))
    decreases b, 0
  {
    match b
    case Done =>
    case Result(e) => hide Near; ExprNear(e, n, l);
    case Let(_, init, rest) =>
      hide Near;
      hide Profile.Then;
      hide Drift.Plus;
      ExprNear(init, n, l);
      BodyNear(rest, n + 1, l);
      NearThen(ProfileOf(init, n, l), 1, Height(init), DriftOf(init, n, l),
               ProfileBody(rest, n + 1, l), 1 + LetCount(rest), HeightBody(rest), DriftBody(rest, n + 1, l));
    case Then(s, rest) =>
      hide Near;
      hide NearStmt;
      hide Profile.Then;
      hide Drift.Plus;
      StmtNear(s, n, l);
      BodyNear(rest, n, l);
      NearThenStmt(ProfileStmt(s, n, l), HeightStmt(s), DriftStmt(s, n, l),
                   ProfileBody(rest, n, l), 1 + LetCount(rest), HeightBody(rest), DriftBody(rest, n, l));
  }

  lemma {:induction false} StmtNear(s: Stmt, n: nat, l: Around)
    ensures NearStmt(ProfileStmt(s, n, l), HeightStmt(s), DriftStmt(s, n, l))
    decreases s, 1
  {
    hide ProfileBlock;
    hide ProfileOf;
    hide DriftOf;
    hide DriftBody;
    hide Height;
    hide HeightBody;
    hide Near;
    hide NearStmt;
    hide Profile.Then;
    hide Profile.Less;
    hide Drift.Plus;
    hide Dropped;
    match s
    case Discard(e) =>
      ExprNear(e, n, l);
      NearDiscard(ProfileOf(e, n, l), Height(e), DriftOf(e, n, l));
    case While(cond, body) =>
      ExprNear(cond, n, Inside(n, false));
      BlockNear(body, n, Inside(n, false));
      NearWhile(ProfileOf(cond, n, Inside(n, false)), Height(cond), DriftOf(cond, n, Inside(n, false)),
                ProfileBlock(body, n, Inside(n, false)), HeightBody(body), DriftBody(body, n, Inside(n, false)));
    case Break(value) =>
      NearBare(Dropped(n, l));
      if value.Some? {
        ExprNear(value.value, n, l);
        NearExit(ProfileOf(value.value, n, l), Height(value.value), DriftOf(value.value, n, l), Dropped(n, l));
      }
    case Continue => NearBare(Dropped(n, l));
    case Return(e) =>
      ExprNear(e, n, l);
      NearDiscard(ProfileOf(e, n, l), Height(e), DriftOf(e, n, l));
  }

  lemma {:induction false} ScriptNear(p: Script)
    ensures Near(ProfileScript(p), 1, HeightScript(p), DriftScript(p))
    decreases p
  {
    match p
    case End =>
    case Define(_, init, next) =>
      hide Near;
      hide Profile.Then;
      hide Profile.Less;
      hide Drift.Plus;
      ExprNear(init, 1, Outside);
      ScriptNear(next);
      NearLess(ProfileOf(init, 1, Outside), 1, Height(init), DriftOf(init, 1, Outside), 1);
      NearThen(ProfileOf(init, 1, Outside).Less(1), 0, Height(init), DriftOf(init, 1, Outside),
               ProfileScript(next), 1, HeightScript(next), DriftScript(next));
    case Run(s, next) =>
      hide Near;
      hide NearStmt;
      hide Profile.Then;
      hide Drift.Plus;
      StmtNear(s, 1, Outside);
      ScriptNear(next);
      NearThenStmt(ProfileStmt(s, 1, Outside), HeightStmt(s), DriftStmt(s, 1, Outside),
                   ProfileScript(next), 1, HeightScript(next), DriftScript(next));
  }

  function DriftFunction(def: FnDef): Drift {
    DriftBody(def.body, 1 + |def.params|, Outside)
  }

  /** The reservation is short of the true height by at most the drift of the body, and
      exceeds it by no more. */
  lemma ReservationCovers(def: FnDef, globals: map<string, nat>)
    requires GenFunction(def, globals).ok
    ensures HeightBody(def.body) <= MaxSlots(def, globals) + DriftFunction(def).short
    ensures MaxSlots(def, globals) <= HeightBody(def.body) + DriftFunction(def).over
  {
    ReservedExactly(def, globals);
    BodyNear(def.body, 1 + |def.params|, Outside);
  }

  // ----- an idle loop -----

  /** `while false { }` */
  predicate IsIdle(s: Stmt) {
    s.While? && s.cond == Literal(Bool(false)) && s.body.Done?
  }

  /** `nil == nil` */
  predicate IsTest(e: Expr) {
    e == Binary(Eq, Literal(Nil), Literal(Nil))
  }

  lemma IdleProfile(s: Stmt, n: nat)
    requires IsIdle(s)
    ensures ProfileStmt(s, n, Outside) == Profile(-1, 1) && HeightStmt(s) == 1
  {
    var l := Inside(n, false);
    assert ProfileBody(s.body, n, l) == Profile(1, 1) && HeightBody(s.body) == 1;
    assert ProfileBlock(s.body, n, l) == Profile(1, 1);
    hide ProfileBlock;
    assert ProfileOf(s.cond, n, l) == Profile(1, 1) && Height(s.cond) == 1;
  }

  lemma TestProfile(e: Expr, n: nat)
    requires IsTest(e)
    ensures ProfileOf(e, n, Outside) == Profile(1, 2) && Height(e) == 2
  {
  }

  /** `while false { } nil == nil` needs two operand slots, and one is reserved. */
  lemma WhileUnderReserves(def: FnDef, globals: map<string, nat>)
    requires GenFunction(def, globals).ok && def.body.Then? && IsIdle(def.body.s) && def.body.rest.Result? && IsTest(def.body.rest.e)
    ensures HeightBody(def.body) == 2 && MaxSlots(def, globals) == 1
  {
    hide GenFunction;
    hide MaxSlots;
    hide IsIdle;
    hide IsTest;
    hide ProfileStmt;
    hide ProfileOf;
    ReservedExactly(def, globals);
    var n := 1 + |def.params|;
    IdleProfile(def.body.s, n);
    TestProfile(def.body.rest.e, n);
    assert ProfileBody(def.body.rest, n, Outside) == Profile(1, 2);
  }
}
