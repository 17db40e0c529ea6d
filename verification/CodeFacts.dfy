/** True operand heights, and the static facts about emitted code that the
    simulation needs. */
module CodeFacts {
  import opened Bytecode
  import opened Values
  import opened Syntax
  import opened Codegen

  // ----- how many slots running a tree can add to the stack -----

  function Height(e: Expr): (h: nat)
    ensures h >= 1
  {
    match e
    case Literal(_) => 1
    case Variable(_) => 1
    case Assign(_, rhs) => Height(rhs)
    case Unary(_, arg) => Height(arg)
    case Binary(_, l, r) => Max(Height(l), 1 + Height(r))
    case And(l, r) => Max(Height(l), Height(r))
    case Or(l, r) => Max(Height(l), Height(r))
    case If(cond, t, f) => Max(Height(cond), Max(HeightBody(t), Height(f)))
    case Block(b) => HeightBody(b)
    case Loop(b) => HeightBody(b)
    case Call(f, args) => Max(Height(f), 1 + HeightArgs(args))
    case Fn(_) => 1
  }

  function HeightArgs(args: Args): nat {
    match args
    case NoArgs => 0
    case Arg(first, rest) => Max(Height(first), 1 + HeightArgs(rest))
  }

  function HeightBody(b: Body): (h: nat)
    ensures h >= 1
  {
    match b
    case Done => 1
    case Result(e) => Height(e)
    case Let(_, init, rest) => Max(Height(init), 1 + HeightBody(rest))
    case Then(s, rest) => Max(HeightStmt(s), HeightBody(rest))
  }

  function HeightStmt(s: Stmt): nat {
    match s
    case Discard(e) => Height(e)
    case While(cond, body) => Max(Height(cond), HeightBody(body))
    case Break(value) => if value.Some? then Height(value.value) else 1
    case Continue => 0
    case Return(e) => Height(e)
  }

  function HeightScript(p: Script): (h: nat)
    ensures h >= 1
  {
    match p
    case End => 1
    case Define(_, init, next) => Max(Height(init), HeightScript(next))
    case Run(s, next) => Max(HeightStmt(s), HeightScript(next))
  }

  // ----- patched code -----

  /** `ins`, with its placeholder jumps aimed at `end`, stands in `code` at `pos`. */
  ghost predicate Loaded(code: seq<Byte>, pos: nat, ins: seq<Instr>, end: nat) {
    CodeAt(code, pos, Patch(ins, pos, end))
  }

  lemma SizeCons(ins: seq<Instr>)
    requires ins != []
    ensures Size(ins) == |Encode(ins[0])| + Size(ins[1..])
  {
    hide Encode;
  }

  lemma EmptySize()
    ensures Size([]) == 0
  {
  }

  lemma {:induction false} PatchAppend(a: seq<Instr>, b: seq<Instr>, pos: nat, end: nat)
    ensures Patch(a + b, pos, end) == Patch(a, pos, end) + Patch(b, pos + Size(a), end)
    decreases a
  {
    hide Encode;
    hide Size;
    hide JumpDistance;
    if a == [] {
      assert a + b == b;
      assert Size(a) == 0 by { EmptySize(); }
    } else {
      assert (a + b)[1..] == a[1..] + b;
      SizeCons(a);
      PatchAppend(a[1..], b, pos + |Encode(a[0])|, end);
    }
  }

  lemma {:induction false} PatchSize(ins: seq<Instr>, pos: nat, end: nat)
    ensures Size(Patch(ins, pos, end)) == Size(ins)
    decreases ins
  {
    hide Encode;
    hide Size;
    hide JumpDistance;
    if ins == [] {
    } else {
      var p := Patch(ins, pos, end);
      PatchSize(ins[1..], pos + |Encode(ins[0])|, end);
      HoleSize(pos, end);
      assert p[1..] == Patch(ins[1..], pos + |Encode(ins[0])|, end);
      SizeCons(ins);
      SizeCons(p);
    }
  }

  lemma HoleSize(pos: nat, end: nat)
    ensures |Encode(BreakHole)| == 3 == |Encode(Plain(JUMP, JumpDistance(pos, end)))|
  {
  }

  lemma LoadedSplit(code: seq<Byte>, pos: nat, a: seq<Instr>, b: seq<Instr>, end: nat)
    ensures Loaded(code, pos, a + b, end) <==> Loaded(code, pos, a, end) && Loaded(code, pos + Size(a), b, end)
    ensures Size(a + b) == Size(a) + Size(b)
  {
    hide CodeAt;
    hide Patch;
    hide Size;
    PatchAppend(a, b, pos, end);
    PatchSize(a, pos, end);
    CodeAtSplit(code, pos, Patch(a, pos, end), Patch(b, pos + Size(a), end));
    CodeAtSplit(code, pos, a, b);
  }

  lemma SizeAppend(a: seq<Instr>, b: seq<Instr>)
    ensures Size(a + b) == Size(a) + Size(b)
  {
    hide EncodeAll;
    EncodeAllAppend(a, b);
  }

  lemma OneSize(op: OpCode)
    ensures OperandWidth(op) == 0 ==> Size(One(op)) == 1
  {
    hide OperandWidth;
    hide Size;
    SizeOfPlain(op, 0);
  }

  lemma BranchSize(d: nat)
    ensures Size([Plain(JUMP_IF_FALSE, d)] + One(POP)) == 4
  {
    hide Size;
    OneSize(POP);
    SizeOfPlain(JUMP_IF_FALSE, d);
    SizeAppend([Plain(JUMP_IF_FALSE, d)], One(POP));
  }

  lemma OrSize(d: nat)
    ensures Size([Plain(JUMP_IF_FALSE, 3)] + [Plain(JUMP, d)] + One(POP)) == 7
  {
    hide Size;
    OneSize(POP);
    SizeOfPlain(JUMP_IF_FALSE, 3);
    SizeOfPlain(JUMP, d);
    SizeAppend([Plain(JUMP_IF_FALSE, 3)], [Plain(JUMP, d)]);
    SizeAppend([Plain(JUMP_IF_FALSE, 3)] + [Plain(JUMP, d)], One(POP));
  }

  // ----- the code of trees with several parts -----

  /** The operands of `and` and `or`, and the jumps between them. */
  datatype AndParts = AndParts(left: Gen, right: Gen, mid: nat, d: nat, glue: seq<Instr>, glueSize: nat)

  function PartsOfAnd(e: Expr, names: seq<string>, k: seq<Value>, c: Ctx, pos: nat): AndParts
    requires e.And? || e.Or?
  {
    var l := GenExpr(e.left, names, k, c, pos);
    var mid := pos + Size(l.code);
    var n := if e.And? then 4 else 7;
    var r := GenExpr(e.right, names, l.consts, c, mid + n);
    var d := 1 + Size(r.code);
    var glue := if e.And? then [Plain(JUMP_IF_FALSE, d)] + One(POP) else [Plain(JUMP_IF_FALSE, 3)] + [Plain(JUMP, d)] + One(POP);
    AndParts(l, r, mid, d, glue, n)
  }

  lemma GlueSize(e: Expr, names: seq<string>, k: seq<Value>, c: Ctx, pos: nat, q: AndParts)
    requires (e.And? || e.Or?) && q == PartsOfAnd(e, names, k, c, pos)
    ensures Size(q.glue) == q.glueSize
  {
    hide GenExpr;
    hide Size;
    BranchSize(q.d);
    OrSize(q.d);
  }

  lemma AndCode(e: Expr, names: seq<string>, k: seq<Value>, c: Ctx, pos: nat, q: AndParts)
    requires e.And? && q == PartsOfAnd(e, names, k, c, pos)
    ensures GenExpr(e, names, k, c, pos)
         == Gen(q.left.code + q.glue + q.right.code, q.right.consts, q.left.ok && q.right.ok && q.d <= MAX_JUMP,
                q.left.aligned && q.right.aligned)
  {
    hide Size;
    hide Encode;
    hide AddConstant;
    hide GenLiteral;
    hide GenVariable;
    hide Patch;
    hide GenBlock;
    assert q.left.code + [Plain(JUMP_IF_FALSE, q.d)] + One(POP) == q.left.code + ([Plain(JUMP_IF_FALSE, q.d)] + One(POP));
  }

  lemma OrCode(e: Expr, names: seq<string>, k: seq<Value>, c: Ctx, pos: nat, q: AndParts)
    requires e.Or? && q == PartsOfAnd(e, names, k, c, pos)
    ensures GenExpr(e, names, k, c, pos)
         == Gen(q.left.code + q.glue + q.right.code, q.right.consts, q.left.ok && q.right.ok && q.d <= MAX_JUMP,
                q.left.aligned && q.right.aligned)
  {
    hide Size;
    hide Encode;
    hide AddConstant;
    hide GenLiteral;
    hide GenVariable;
    hide Patch;
    hide GenBlock;
    assert q.left.code + [Plain(JUMP_IF_FALSE, 3)] + [Plain(JUMP, q.d)] + One(POP)
        == q.left.code + ([Plain(JUMP_IF_FALSE, 3)] + [Plain(JUMP, q.d)] + One(POP));
  }

  datatype IfParts = IfParts(cond: Gen, thn: Gen, els: Gen, mid: nat, dt: nat, df: nat)

  function PartsOfIf(e: Expr, names: seq<string>, k: seq<Value>, c: Ctx, pos: nat): IfParts
    requires e.If?
  {
    var l := GenExpr(e.cond, names, k, c, pos);
    var mid := pos + Size(l.code);
    var t := GenBlock(e.thenBody, names, l.consts, c, mid + 4);
    var dt := 4 + Size(t.code);
    var f := GenExpr(e.elseExpr, names, t.consts, c, mid + 3 + dt + 1);
    IfParts(l, t, f, mid, dt, 1 + Size(f.code))
  }

  lemma IfCode(e: Expr, names: seq<string>, k: seq<Value>, c: Ctx, pos: nat, q: IfParts)
    requires e.If? && q == PartsOfIf(e, names, k, c, pos)
    ensures GenExpr(e, names, k, c, pos)
         == Gen(q.cond.code + [Plain(JUMP_IF_FALSE, q.dt)] + One(POP) + q.thn.code + [Plain(JUMP, q.df)] + One(POP) + q.els.code,
                q.els.consts, q.cond.ok && q.thn.ok && q.els.ok && q.dt <= MAX_JUMP && q.df <= MAX_JUMP,
                q.cond.aligned && q.thn.aligned && q.els.aligned)
    ensures q.thn.consts <= q.els.consts && q.cond.consts <= q.thn.consts
  {
    hide Size;
    hide Encode;
    hide AddConstant;
    hide GenLiteral;
    hide GenVariable;
    hide Patch;
    hide GenBlock;
  }

  lemma LoopCode(e: Expr, names: seq<string>, k: seq<Value>, c: Ctx, pos: nat, b: Gen)
    requires e.Loop? && b == GenBlock(e.body, names, k, c.(loop := InLoop(pos, |names|, true)), pos)
    ensures
      var d := Size(b.code) + 4;
      GenExpr(e, names, k, c, pos)
      == Gen(Patch(b.code + One(POP) + [Plain(LOOP, d)], pos, pos + d), b.consts, b.ok && d <= MAX_JUMP, b.aligned)
  {
    hide Size;
    hide GenBlock;
    hide Patch;
  }

  datatype WhilePieces = WhilePieces(cond: Gen, body: Gen, dx: nat, d: nat, inner: seq<Instr>)

  function PiecesOfWhile(s: Stmt, names: seq<string>, k: seq<Value>, c: Ctx, pos: nat): WhilePieces
    requires s.While?
  {
    var c' := c.(loop := InLoop(pos, |names|, false));
    var l := GenExpr(s.cond, names, k, c', pos);
    var b := GenBlock(s.body, names, l.consts, c', pos + Size(l.code) + 4);
    var dx := Size(b.code) + 5;
    var d := Size(l.code) + 3 + dx;
    WhilePieces(l, b, dx, d,
               l.code + [Plain(JUMP_IF_FALSE, dx)] + One(POP) + b.code + One(POP) + [Plain(LOOP, d)] + One(POP))
  }

  lemma WhileCode(s: Stmt, names: seq<string>, k: seq<Value>, c: Ctx, pos: nat, q: WhilePieces)
    requires s.While? && q == PiecesOfWhile(s, names, k, c, pos)
    ensures GenStmt(s, names, k, c, pos)
         == Gen(Patch(q.inner, pos, pos + q.d + 1), q.body.consts, q.cond.ok && q.body.ok && q.d <= MAX_JUMP,
                q.cond.aligned && q.body.aligned)
  {
    hide Size;
    hide GenBlock;
    hide Patch;
  }

  lemma CallCode(e: Expr, names: seq<string>, k: seq<Value>, c: Ctx, pos: nat, f: Gen, a: Gen)
    requires e.Call?
    requires f == GenExpr(e.callee, names, k, c, pos)
    requires a == GenArgs(e.args, names, f.consts, c, pos + Size(f.code))
    ensures GenExpr(e, names, k, c, pos)
         == Gen(f.code + a.code + [Plain(CALL, ArgCount(e.args))], a.consts, f.ok && a.ok && ArgCount(e.args) <= MAX_ARGUMENTS,
                f.aligned && a.aligned)
  {
    hide Size;
    hide Encode;
    hide AddConstant;
    hide GenLiteral;
    hide GenVariable;
    hide Patch;
    hide GenArgs;
  }

  lemma ArgsCode(args: Args, names: seq<string>, k: seq<Value>, c: Ctx, pos: nat, f: Gen, r: Gen)
    requires args.Arg?
    requires f == GenExpr(args.first, names, k, c, pos)
    requires r == GenArgs(args.rest, names, f.consts, c, pos + Size(f.code))
    ensures GenArgs(args, names, k, c, pos) == Gen(f.code + r.code, r.consts, f.ok && r.ok, f.aligned && r.aligned)
  {
    hide Size;
    hide GenExpr;
  }

  lemma LetCode(b: Body, names: seq<string>, k: seq<Value>, c: Ctx, pos: nat, i: Gen, r: Gen)
    requires b.Let?
    requires i == GenExpr(b.init, names, k, c, pos)
    requires r == GenBody(b.rest, names + [b.name], i.consts, c, pos + Size(i.code))
    ensures
      var unused := (c.scopeStart <= |names| ==> b.name !in names[c.scopeStart..]) && |names| < MAX_INDEX;
      GenBody(b, names, k, c, pos) == Gen(i.code + r.code, r.consts, i.ok && r.ok && unused, i.aligned && r.aligned)
  {
    hide Size;
    hide GenExpr;
  }

  lemma SeqCode(b: Body, names: seq<string>, k: seq<Value>, c: Ctx, pos: nat, i: Gen, r: Gen)
    requires b.Then?
    requires i == GenStmt(b.s, names, k, c, pos)
    requires r == GenBody(b.rest, names, i.consts, c, pos + Size(i.code))
    ensures GenBody(b, names, k, c, pos) == Gen(i.code + r.code, r.consts, i.ok && r.ok, i.aligned && r.aligned)
  {
    hide Size;
    hide GenStmt;
  }

  lemma BinaryCode(e: Expr, names: seq<string>, k: seq<Value>, c: Ctx, pos: nat, l: Gen, r: Gen)
    requires e.Binary?
    requires l == GenExpr(e.left, names, k, c, pos)
    requires r == GenExpr(e.right, names, l.consts, c, pos + Size(l.code))
    ensures GenExpr(e, names, k, c, pos) == Gen(l.code + r.code + One(BinaryOpcode(e.bop)), r.consts, l.ok && r.ok, l.aligned && r.aligned)
  {
    hide Size;
    hide Encode;
    hide AddConstant;
    hide GenLiteral;
    hide GenVariable;
    hide Patch;
    hide GenBlock;
    hide BinaryOpcode;
  }

  lemma Regroup<T>(a: seq<T>, b: seq<T>, c: seq<T>, d: seq<T>, e: seq<T>, f: seq<T>, g: seq<T>)
    ensures a + b + c + d + e + f + g == a + (b + c + d + (e + f + g))
  {
    assert b + c + d + (e + f + g) == b + c + d + e + f + g;
    assert a + (b + c + d + e + f + g) == a + b + c + d + e + f + g;
  }

  // ----- placeholders -----

  ghost predicate NoHoles(ins: seq<Instr>) {
    forall j :: 0 <= j < |ins| ==> ins[j] != BreakHole
  }

  lemma {:induction false} PatchNoHoles(ins: seq<Instr>, pos: nat, end: nat)
    ensures NoHoles(Patch(ins, pos, end))
    decreases ins
  {
    hide Encode;
    if ins != [] { PatchNoHoles(ins[1..], pos + |Encode(ins[0])|, end); }
  }

  lemma {:induction false} PatchIdentity(ins: seq<Instr>, pos: nat, end: nat)
    requires NoHoles(ins)
    ensures Patch(ins, pos, end) == ins
    decreases ins
  {
    hide Encode;
    if ins != [] {
      PatchIdentity(ins[1..], pos + |Encode(ins[0])|, end);
      assert ins == [ins[0]] + ins[1..];
    }
  }

  /** Outside of loops no placeholder is emitted. */
  lemma {:induction false} ExprNoHoles(e: Expr, names: seq<string>, k: seq<Value>, c: Ctx, pos: nat)
    requires c.loop.NoLoop? && GenExpr(e, names, k, c, pos).ok
    ensures NoHoles(GenExpr(e, names, k, c, pos).code)
    decreases e, 1
  {
    hide Size;
    hide AddConstant;
    hide Patch;
    hide GenBlock;
    hide VarLength;
    match e
    case Literal(_) => LiteralNoHoles(k, e.value);
    case Variable(_) => VariableNoHoles(e.name, names, k, c);
    case Assign(_, rhs) =>
      ExprNoHoles(rhs, names, k, c, pos);
      VariableNoHoles(e.name, names, GenExpr(rhs, names, k, c, pos).consts, c);
    case Unary(_, arg) => ExprNoHoles(arg, names, k, c, pos);
    case Block(b) => BlockNoHoles(b, names, k, c, pos);
    case Loop(b) =>
      var g := GenBlock(b, names, k, c.(loop := InLoop(pos, |names|, true)), pos);
      var d := Size(g.code) + 1 + 3;
      PatchNoHoles(g.code + One(POP) + [Plain(LOOP, d)], pos, pos + d);
    case Fn(_) =>
    case _ => PartsNoHoles(e, names, k, c, pos);
  }

  lemma LiteralNoHoles(k: seq<Value>, v: Value)
    ensures NoHoles(GenLiteral(k, v).code)
  {
    hide AddConstant;
  }

  lemma VariableNoHoles(name: string, names: seq<string>, k: seq<Value>, c: Ctx)
    ensures NoHoles(GenVariable(GET_LOCAL, GET_GLOBAL, name, names, k, c).code)
    ensures NoHoles(GenVariable(SET_LOCAL, SET_GLOBAL, name, names, k, c).code)
  {
  }

  /** Trees with several parts in sequence. */
  lemma {:induction false} PartsNoHoles(e: Expr, names: seq<string>, k: seq<Value>, c: Ctx, pos: nat)
    requires e.Binary? || e.And? || e.Or? || e.If? || e.Call?
    requires c.loop.NoLoop? && GenExpr(e, names, k, c, pos).ok
    ensures NoHoles(GenExpr(e, names, k, c, pos).code)
    decreases e, 0
  {
    hide GenExpr;
    hide Size;
    hide GenBlock;
    hide GenArgs;
    hide BinaryOpcode;
    hide NoHoles;
    NoHolesJoins();
    if e.If? {
      var q := PartsOfIf(e, names, k, c, pos);
      IfCode(e, names, k, c, pos, q);
      ExprNoHoles(e.cond, names, k, c, pos);
      BlockNoHoles(e.thenBody, names, q.cond.consts, c, q.mid + 4);
      ExprNoHoles(e.elseExpr, names, q.thn.consts, c, q.mid + 4 + q.dt);
    } else if e.Call? {
      var f := GenExpr(e.callee, names, k, c, pos);
      var a := GenArgs(e.args, names, f.consts, c, pos + Size(f.code));
      CallCode(e, names, k, c, pos, f, a);
      ExprNoHoles(e.callee, names, k, c, pos);
      ArgsNoHoles(e.args, names, f.consts, c, pos + Size(f.code));
    } else if e.Binary? {
      var l := GenExpr(e.left, names, k, c, pos);
      var r := GenExpr(e.right, names, l.consts, c, pos + Size(l.code));
      BinaryCode(e, names, k, c, pos, l, r);
      ExprNoHoles(e.left, names, k, c, pos);
      ExprNoHoles(e.right, names, l.consts, c, pos + Size(l.code));
    } else {
      var q := PartsOfAnd(e, names, k, c, pos);
      if e.And? { AndCode(e, names, k, c, pos, q); } else { OrCode(e, names, k, c, pos, q); }
      ExprNoHoles(e.left, names, k, c, pos);
      ExprNoHoles(e.right, names, q.left.consts, c, q.mid + q.glueSize);
    }
  }

  /** Plain instructions and hole-free parts join to hole-free code. */
  lemma NoHolesJoins()
    ensures forall op: OpCode, n: nat :: NoHoles([Plain(op, n)])
    ensures forall a: seq<Instr>, b: seq<Instr> :: NoHoles(a) && NoHoles(b) ==> NoHoles(a + b)
  {
  }

  lemma {:induction false} ArgsNoHoles(args: Args, names: seq<string>, k: seq<Value>, c: Ctx, pos: nat)
    requires c.loop.NoLoop? && GenArgs(args, names, k, c, pos).ok
    ensures NoHoles(GenArgs(args, names, k, c, pos).code)
    decreases args, 1
  {
    hide Size;
    hide GenExpr;
    if args.Arg? {
      ExprNoHoles(args.first, names, k, c, pos);
      var g := GenExpr(args.first, names, k, c, pos);
      ArgsNoHoles(args.rest, names, g.consts, c, pos + Size(g.code));
    }
  }

  lemma {:induction false} BlockNoHoles(b: Body, names: seq<string>, k: seq<Value>, c: Ctx, pos: nat)
    requires c.loop.NoLoop? && GenBlock(b, names, k, c, pos).ok
    ensures NoHoles(GenBlock(b, names, k, c, pos).code)
    decreases b, 1
  {
    hide GenBody;
    BodyNoHoles(b, names, k, c.(scopeStart := |names|), pos);
  }

  lemma {:induction false} BodyNoHoles(b: Body, names: seq<string>, k: seq<Value>, c: Ctx, pos: nat)
    requires c.loop.NoLoop? && GenBody(b, names, k, c, pos).ok
    ensures NoHoles(GenBody(b, names, k, c, pos).code)
    decreases b, 0
  {
    hide Size;
    hide GenExpr;
    hide GenStmt;
    match b
    case Done =>
    case Result(e) => ExprNoHoles(e, names, k, c, pos);
    case Let(name, init, rest) =>
      ExprNoHoles(init, names, k, c, pos);
      var g := GenExpr(init, names, k, c, pos);
      BodyNoHoles(rest, names + [name], g.consts, c, pos + Size(g.code));
    case Then(s, rest) =>
      StmtNoHoles(s, names, k, c, pos);
      var g := GenStmt(s, names, k, c, pos);
      BodyNoHoles(rest, names, g.consts, c, pos + Size(g.code));
  }

  lemma {:induction false} StmtNoHoles(s: Stmt, names: seq<string>, k: seq<Value>, c: Ctx, pos: nat)
    requires c.loop.NoLoop? && GenStmt(s, names, k, c, pos).ok
    ensures NoHoles(GenStmt(s, names, k, c, pos).code)
    decreases s, 0
  {
    hide Size;
    hide Patch;
    hide GenExpr;
    hide GenBlock;
    match s
    case Discard(e) => ExprNoHoles(e, names, k, c, pos);
    case While(cond, body) =>
      var c' := c.(loop := InLoop(pos, |names|, false));
      var l := GenExpr(cond, names, k, c', pos);
      var b := GenBlock(body, names, l.consts, c', pos + Size(l.code) + 4);
      var dx := 1 + Size(b.code) + 1 + 3;
      var d := Size(l.code) + 3 + dx;
      PatchNoHoles(l.code + [Plain(JUMP_IF_FALSE, dx)] + One(POP) + b.code + One(POP)
                   + [Plain(LOOP, d)] + One(POP), pos, pos + d + 1);
    case Break(_) =>
    case Continue =>
    case Return(e) => ExprNoHoles(e, names, k, c, pos);
  }

  lemma {:induction false} ScriptNoHoles(p: Script, k: seq<Value>, globals: map<string, nat>, pos: nat)
    requires GenScript(p, k, globals, pos).ok
    ensures NoHoles(GenScript(p, k, globals, pos).code)
    decreases p
  {
    hide Size;
    hide GenExpr;
    hide GenStmt;
    var c := Ctx(globals, false, 0, NoLoop);
    match p
    case End =>
    case Define(name, init, next) =>
      var i := GenExpr(init, [""], k, c, pos);
      ExprNoHoles(init, [""], k, c, pos);
      ScriptNoHoles(next, i.consts, globals, pos + Size(i.code) + Size([VarLength(DEFINE_GLOBAL, globals[name])]));
    case Run(s, next) =>
      var d := GenStmt(s, [""], k, c, pos);
      StmtNoHoles(s, [""], k, c, pos);
      ScriptNoHoles(next, d.consts, globals, pos + Size(d.code));
  }

  /** A patched loop has no placeholder left for an enclosing loop to patch. */
  lemma PatchTwice(ins: seq<Instr>, pos: nat, inner: nat, outer: nat)
    ensures Patch(Patch(ins, pos, inner), pos, outer) == Patch(ins, pos, inner)
  {
    hide Patch;
    PatchNoHoles(ins, pos, inner);
    PatchIdentity(Patch(ins, pos, inner), pos, outer);
  }

  lemma OneLoaded(code: seq<Byte>, pos: nat, op: OpCode, operand: nat, end: nat)
    ensures Loaded(code, pos, [Plain(op, operand)], end) <==> CodeAt(code, pos, [Plain(op, operand)])
    ensures Size([Plain(op, operand)]) == 1 + OperandWidth(op)
  {
    hide CodeAt;
    hide Size;
    PlainPatch(op, operand, pos, end);
    SizeOfPlain(op, operand);
  }

  lemma PlainPatch(op: OpCode, operand: nat, pos: nat, end: nat)
    ensures Patch([Plain(op, operand)], pos, end) == [Plain(op, operand)]
  {
    hide Encode;
    var ins := [Plain(op, operand)];
    assert ins[1..] == [];
  }

  lemma SizeOfPlain(op: OpCode, operand: nat)
    ensures Size([Plain(op, operand)]) == 1 + OperandWidth(op)
  {
    hide OpByte;
    hide OperandWidth;
    EncodeOne(Plain(op, operand));
  }
}
