/** The output of the parser between two steps, and how the code of each tree grows
    piece by piece while jumps wait to be aimed. */
module Staging {
  import opened Bytecode
  import opened Values
  import opened Syntax
  import opened Codegen
  import opened CodeFacts
  import opened Slots
  import opened LoopWalk

  /** Whether an error was reported, which rejects the program. */
  datatype Verdict = Pass | Rejected
  {
    predicate IsFailure() { Rejected? }
    function PropagateFailure(): Verdict requires Rejected? { Rejected }
  }

  datatype Local = Local(name: string, depth: int)

  datatype LoopRecord = LoopRecord(start: nat, scopeDepth: int, isLoopExpr: bool)

  /** What a compiled function accumulates. */
  datatype Output = Output(code: seq<Byte>, constants: seq<Value>, numSlots: int, maxSlots: int)

  /** `o` after `ins` were emitted and the constant table became `k`. */
  function Emitted(o: Output, ins: seq<Instr>, k: seq<Value>): (r: Output)
    ensures |r.code| == |o.code| + Size(ins) && r.constants == k
  {
    Output(o.code + EncodeAll(ins), k, o.numSlots + Net(ins), Max(o.maxSlots, o.numSlots + Peak(ins)))
  }

  lemma EmittedTwice(o: Output, a: seq<Instr>, ka: seq<Value>, b: seq<Instr>, kb: seq<Value>)
    ensures Emitted(Emitted(o, a, ka), b, kb) == Emitted(o, a + b, kb)
    ensures |Emitted(o, a, ka).code| == |o.code| + Size(a)
  {
    hide EncodeAll;
    hide Net;
    hide Peak;
    EncodeAllAppend(a, b);
    Append(a, b);
    assert o.code + EncodeAll(a) + EncodeAll(b) == o.code + (EncodeAll(a) + EncodeAll(b));
  }

  lemma EmittedNothing(o: Output)
    requires o.numSlots <= o.maxSlots
    ensures Emitted(o, [], o.constants) == o
  {
  }

  /** The operand of a jump does not matter to the slot count. */
  lemma SameSlots(before: seq<Instr>, op: OpCode, after: seq<Instr>, d: nat)
    requires op in {JUMP, JUMP_IF_FALSE, LOOP}
    ensures Net(before + [Plain(op, MAX_JUMP)] + after) == Net(before + [Plain(op, d)] + after)
    ensures Peak(before + [Plain(op, MAX_JUMP)] + after) == Peak(before + [Plain(op, d)] + after)
  {
    hide Net;
    hide Peak;
    Append(before + [Plain(op, MAX_JUMP)], after);
    Append(before, [Plain(op, MAX_JUMP)]);
    Append(before + [Plain(op, d)], after);
    Append(before, [Plain(op, d)]);
    Single(Plain(op, MAX_JUMP));
    Single(Plain(op, d));
  }

  /** Aiming a jump at the end of the code is the same as emitting it so. */
  lemma PatchEmitted(o: Output, before: seq<Instr>, op: OpCode, after: seq<Instr>, k: seq<Value>)
    requires op in {JUMP, JUMP_IF_FALSE}
    ensures
      var all := Emitted(o, before + [Plain(op, MAX_JUMP)] + after, k);
      var offset := |o.code| + Size(before) + 1;
      && offset + 2 <= |all.code| && |all.code| - offset - 2 == Size(after)
      && all.(code := Overwrite(all.code, offset, Size(after))) == Emitted(o, before + [Plain(op, Size(after))] + after, k)
  {
    hide EncodeAll;
    hide Size;
    hide Net;
    hide Peak;
    hide Overwrite;
    SameSlots(before, op, after, Size(after));
    OverwriteJump(o.code, before, op, after, Size(after));
  }

  /** Patching a finished loop rewrites its part of the code and changes no count. */
  lemma LoopEmitted(o: Output, inner: seq<Instr>, k: seq<Value>, end: nat)
    ensures
      var out := Emitted(o, inner, k);
      && out.code[|o.code|..] == EncodeAll(inner)
      && out.(code := out.code[..|o.code|] + EncodeAll(Patch(inner, |o.code|, end))) == Emitted(o, Patch(inner, |o.code|, end), k)
  {
    hide EncodeAll;
    hide Net;
    hide Peak;
    hide Patch;
    Patched(inner, |o.code|, end);
    var out := Emitted(o, inner, k);
    assert out.code[..|o.code|] == o.code;
  }

  // ----- locals and loops as the trees' context -----

  function NamesOf(locals: seq<Local>): (names: seq<string>)
    ensures |names| == |locals|
  {
    seq(|locals|, i requires 0 <= i < |locals| => locals[i].name)
  }

  lemma NameThere(locals: seq<Local>, start: nat, i: nat)
    requires start <= i < |locals|
    ensures start <= |NamesOf(locals)| && locals[i].name in NamesOf(locals)[start..]
  {
    assert NamesOf(locals)[start..][i - start] == locals[i].name;
  }

  lemma NameNotThere(locals: seq<Local>, start: nat, name: string)
    requires start <= |locals| && forall j :: start <= j < |locals| ==> locals[j].name != name
    ensures start <= |NamesOf(locals)| && name !in NamesOf(locals)[start..]
  {
    var names := NamesOf(locals)[start..];
    assert forall j :: 0 <= j < |names| ==> names[j] == locals[start + j].name;
  }

  /** How many locals are declared at depth `d` or outside of it. */
  function CountUpTo(locals: seq<Local>, d: int): (n: nat)
    ensures n <= |locals|
  {
    if locals == [] || locals[0].depth > d then 0 else 1 + CountUpTo(locals[1..], d)
  }

  predicate Sorted(locals: seq<Local>, depth: int) {
    && (forall i, j :: 0 <= i < j < |locals| ==> locals[i].depth <= locals[j].depth)
    && (forall i :: 0 <= i < |locals| ==> 0 <= locals[i].depth <= depth)
  }

  lemma {:induction false} CountSplit(locals: seq<Local>, d: int, n: nat)
    requires n <= |locals|
    requires forall i :: 0 <= i < n ==> locals[i].depth <= d
    requires forall i :: n <= i < |locals| ==> locals[i].depth > d
    ensures CountUpTo(locals, d) == n
  {
    if n > 0 { CountSplit(locals[1..], d, n - 1); }
  }

  lemma {:induction false} CountMeans(locals: seq<Local>, depth: int, d: int)
    requires Sorted(locals, depth)
    ensures forall i :: 0 <= i < |locals| ==> (locals[i].depth <= d <==> i < CountUpTo(locals, d))
  {
    if locals != [] {
      CountMeans(locals[1..], depth, d);
      assert forall i :: 0 < i < |locals| ==> locals[i] == locals[1..][i - 1];
    }
  }

  function LoopOf(locals: seq<Local>, loop: Option<LoopRecord>): LoopContext {
    match loop
    case None => NoLoop
    case Some(l) => InLoop(l.start, CountUpTo(locals, l.scopeDepth), l.isLoopExpr)
  }

  /** The parser's state between two steps. */
  datatype Snapshot = Snapshot(
    globals: map<string, nat>, inFunction: bool,
    out: Output, locals: seq<Local>, scopeDepth: int, innermostLoop: Option<LoopRecord>)
  {
    /** Locals are kept in order of depth; the first is the function's own slot. */
    ghost predicate Sound() {
      && out.numSlots <= out.maxSlots
      && 0 <= scopeDepth && Sorted(locals, scopeDepth) && 0 < |locals| <= MAX_INDEX && locals[0].depth == 0
      && (innermostLoop.Some? ==> 0 <= innermostLoop.value.scopeDepth <= scopeDepth && innermostLoop.value.start <= |out.code|)
    }

    function C(): Ctx {
      Ctx(globals, inFunction, CountUpTo(locals, scopeDepth - 1), LoopOf(locals, innermostLoop))
    }

    /** The code a tree is specified to have, if it is compiled here. */
    function Expr(e: Expr): Gen { GenExpr(e, NamesOf(locals), out.constants, C(), |out.code|) }

    function Args(args: Args): Gen { GenArgs(args, NamesOf(locals), out.constants, C(), |out.code|) }

    function Block(b: Body): Gen { GenBlock(b, NamesOf(locals), out.constants, C(), |out.code|) }

    function Body(b: Body): Gen { GenBody(b, NamesOf(locals), out.constants, C(), |out.code|) }

    function Stmt(s: Stmt): Gen { GenStmt(s, NamesOf(locals), out.constants, C(), |out.code|) }

    function AndParts(e: Expr): AndParts
      requires e.And? || e.Or?
    {
      PartsOfAnd(e, NamesOf(locals), out.constants, C(), |out.code|)
    }

    function IfParts(e: Expr): IfParts
      requires e.If?
    {
      PartsOfIf(e, NamesOf(locals), out.constants, C(), |out.code|)
    }

    function WhilePieces(s: Stmt): WhilePieces
      requires s.While?
    {
      PiecesOfWhile(s, NamesOf(locals), out.constants, C(), |out.code|)
    }

    function Script(p: Script): Gen { GenScript(p, out.constants, globals, |out.code|) }

    /** The first declaration or statement of a body, and the state after it. */
    function First(b: Body): Gen
      requires b.Let? || b.Then?
    {
      if b.Let? then Expr(b.init) else Stmt(b.s)
    }

    function Next(b: Body): Snapshot
      requires b.Let? || b.Then?
    {
      After(First(b).code, First(b).consts).(locals := if b.Let? then locals + [Local(b.name, scopeDepth)] else locals)
    }

    function After(ins: seq<Instr>, k: seq<Value>): Snapshot {
      this.(out := Emitted(out, ins, k))
    }

    /** The code `g` was appended and nothing else changed, or an error was found
        exactly where `g` has one. */
    ghost predicate Wrote(r: Verdict, now: Snapshot, g: Gen) {
      && (r.Pass? <==> g.ok)
      && (r.Pass? ==> now == After(g.code, g.consts) && now.Sound())
    }
  }

  /** Entering a scope: every local so far lies outside of it. */
  lemma EnterScope(locals: seq<Local>, depth: int)
    requires Sorted(locals, depth)
    ensures CountUpTo(locals, depth) == |locals| && Sorted(locals, depth + 1)
  {
    CountSplit(locals, depth, |locals|);
  }

  /** Locals were only added, at `depth`. */
  ghost predicate Deepened(was: seq<Local>, locals: seq<Local>, depth: int) {
    && |was| <= |locals| && locals[..|was|] == was
    && forall i :: |was| <= i < |locals| ==> locals[i].depth == depth
  }

  lemma DeepenedNot(was: seq<Local>, depth: int)
    ensures Deepened(was, was, depth)
  {
  }

  lemma DeepenedMore(was: seq<Local>, locals: seq<Local>, l: Local)
    requires Deepened(was, locals, l.depth)
    ensures Deepened(was, locals + [l], l.depth)
  {
  }

  lemma LeaveScope(was: seq<Local>, locals: seq<Local>, depth: int)
    requires Sorted(locals, depth) && Sorted(was, depth - 1) && Deepened(was, locals, depth)
    ensures var keep := |was|; keep <= |locals| && forall i :: 0 <= i < |locals| ==> (locals[i].depth < depth <==> i < keep)
  {
    forall i | 0 <= i < |was| ensures locals[i].depth < depth { assert locals[..|was|][i] == locals[i]; }
  }

  lemma ClosureEmitted(o: Output, index: nat)
    ensures Emitted(o, [VarLength(CLOSURE, index)], o.constants) == Emitted(o, [MakeClosure(index, [])], o.constants)
  {
    hide EncodeAll;
    hide Net;
    hide Peak;
    EncodeOne(VarLength(CLOSURE, index));
    EncodeOne(MakeClosure(index, []));
    BareClosure(index, VarLength(CLOSURE, index).op);
    Single(VarLength(CLOSURE, index));
    Single(MakeClosure(index, []));
  }

  // ----- the stages of trees with jumps -----

  /** `a` and then one plain instruction. */
  lemma Stage(o: Output, a: seq<Instr>, k: seq<Value>, op: OpCode, operand: nat, b: seq<Instr>)
    requires b == a + [Plain(op, operand)]
    ensures Emitted(Emitted(o, a, k), [Plain(op, operand)], k) == Emitted(o, b, k)
    ensures Size(b) == Size(a) + 1 + OperandWidth(op)
  {
    hide Emitted;
    EmittedPlain(o, a, k, op, operand);
  }

  lemma Part(o: Output, a: seq<Instr>, k: seq<Value>, g: Gen, b: seq<Instr>)
    requires b == a + g.code
    ensures Emitted(Emitted(o, a, k), g.code, g.consts) == Emitted(o, b, g.consts)
    ensures Size(b) == Size(a) + Size(g.code)
  {
    hide Emitted;
    hide Size;
    EmittedTwice(o, a, k, g.code, g.consts);
    SizeAppend(a, g.code);
  }

  /** The jump after `before` is aimed at the end of `all`. */
  ghost predicate Aims(o: Output, before: seq<Instr>, all: seq<Instr>, k: seq<Value>, d: nat, patched: seq<Instr>) {
    var out := Emitted(o, all, k);
    var offset := |o.code| + Size(before) + 1;
    && offset + 2 <= |out.code| && |out.code| - offset - 2 == d
    && out.(code := Overwrite(out.code, offset, d)) == Emitted(o, patched, k)
  }

  lemma Aimed(o: Output, before: seq<Instr>, op: OpCode, after: seq<Instr>, k: seq<Value>, d: nat, all: seq<Instr>, patched: seq<Instr>)
    requires op in {JUMP, JUMP_IF_FALSE} && d == Size(after)
    requires all == before + [Plain(op, MAX_JUMP)] + after && patched == before + [Plain(op, d)] + after
    ensures Aims(o, before, all, k, d, patched)
    ensures Size(patched) == Size(all) == Size(before) + 3 + d
  {
    hide Emitted;
    hide Overwrite;
    hide Size;
    PatchEmitted(o, before, op, after, k);
    SizeOfPlain(op, MAX_JUMP);
    SizeOfPlain(op, d);
    SizeAppend(before + [Plain(op, MAX_JUMP)], after);
    SizeAppend(before + [Plain(op, d)], after);
    SizeAppend(before, [Plain(op, MAX_JUMP)]);
    SizeAppend(before, [Plain(op, d)]);
  }

  /** The code of an `if` as it grows: condition, jump, pop, block, jump, the first jump
      aimed, pop, `else` part, the second jump aimed; last, what stands before that jump. */
  function IfStage(q: IfParts, n: nat): seq<Instr> {
    if n == 0 then q.cond.code
    else if n == 1 then IfStage(q, 0) + [Plain(JUMP_IF_FALSE, MAX_JUMP)]
    else if n == 2 then IfStage(q, 1) + One(POP)
    else if n == 3 then IfStage(q, 2) + q.thn.code
    else if n == 4 then IfStage(q, 3) + [Plain(JUMP, MAX_JUMP)]
    else if n == 5 then q.cond.code + [Plain(JUMP_IF_FALSE, q.dt)] + One(POP) + q.thn.code + [Plain(JUMP, MAX_JUMP)]
    else if n == 6 then IfStage(q, 5) + One(POP)
    else if n == 7 then IfStage(q, 6) + q.els.code
    else if n == 8 then q.cond.code + [Plain(JUMP_IF_FALSE, q.dt)] + One(POP) + q.thn.code + [Plain(JUMP, q.df)] + One(POP) + q.els.code
    else q.cond.code + [Plain(JUMP_IF_FALSE, q.dt)] + One(POP) + q.thn.code
  }

  lemma IfStages(o: Output, q: IfParts)
    requires q.dt == 4 + Size(q.thn.code) && q.df == 1 + Size(q.els.code)
    ensures IfStage(q, 0) == q.cond.code
    ensures Emitted(Emitted(o, IfStage(q, 0), q.cond.consts), [Plain(JUMP_IF_FALSE, MAX_JUMP)], q.cond.consts) == Emitted(o, IfStage(q, 1), q.cond.consts)
    ensures Emitted(Emitted(o, IfStage(q, 1), q.cond.consts), One(POP), q.cond.consts) == Emitted(o, IfStage(q, 2), q.cond.consts)
    ensures Size(IfStage(q, 2)) == Size(q.cond.code) + 4
    ensures Emitted(Emitted(o, IfStage(q, 2), q.cond.consts), q.thn.code, q.thn.consts) == Emitted(o, IfStage(q, 3), q.thn.consts)
    ensures Size(IfStage(q, 3)) == Size(q.cond.code) + q.dt
    ensures Emitted(Emitted(o, IfStage(q, 3), q.thn.consts), [Plain(JUMP, MAX_JUMP)], q.thn.consts) == Emitted(o, IfStage(q, 4), q.thn.consts)
    ensures Aims(o, q.cond.code, IfStage(q, 4), q.thn.consts, q.dt, IfStage(q, 5))
    ensures Emitted(Emitted(o, IfStage(q, 5), q.thn.consts), One(POP), q.thn.consts) == Emitted(o, IfStage(q, 6), q.thn.consts)
    ensures Size(IfStage(q, 6)) == Size(q.cond.code) + q.dt + 4
    ensures Emitted(Emitted(o, IfStage(q, 6), q.thn.consts), q.els.code, q.els.consts) == Emitted(o, IfStage(q, 7), q.els.consts)
    ensures Size(IfStage(q, 9)) == Size(q.cond.code) + q.dt && Aims(o, IfStage(q, 9), IfStage(q, 7), q.els.consts, q.df, IfStage(q, 8))
  {
    hide Emitted;
    hide Aims;
    hide Size;
    hide OperandWidth;
    Widths();
    OneSize(POP);
    var jump := [Plain(JUMP, MAX_JUMP)];
    Stage(o, IfStage(q, 0), q.cond.consts, JUMP_IF_FALSE, MAX_JUMP, IfStage(q, 1));
    Stage(o, IfStage(q, 1), q.cond.consts, POP, 0, IfStage(q, 2));
    Part(o, IfStage(q, 2), q.cond.consts, q.thn, IfStage(q, 3));
    Stage(o, IfStage(q, 3), q.thn.consts, JUMP, MAX_JUMP, IfStage(q, 4));
    Regroup5(q.cond.code, [Plain(JUMP_IF_FALSE, MAX_JUMP)], One(POP), q.thn.code, jump);
    Regroup5(q.cond.code, [Plain(JUMP_IF_FALSE, q.dt)], One(POP), q.thn.code, jump);
    SizeAppend(One(POP) + q.thn.code, jump);
    SizeAppend(One(POP), q.thn.code);
    SizeOfPlain(JUMP, MAX_JUMP);
    Aimed(o, q.cond.code, JUMP_IF_FALSE, One(POP) + q.thn.code + jump, q.thn.consts, q.dt, IfStage(q, 4), IfStage(q, 5));
    Stage(o, IfStage(q, 5), q.thn.consts, POP, 0, IfStage(q, 6));
    Part(o, IfStage(q, 6), q.thn.consts, q.els, IfStage(q, 7));
    var before := IfStage(q, 9);
    SizeAppend(before, jump);
    Regroup4(before, jump, One(POP), q.els.code);
    Regroup4(before, [Plain(JUMP, q.df)], One(POP), q.els.code);
    SizeAppend(One(POP), q.els.code);
    Aimed(o, before, JUMP, One(POP) + q.els.code, q.els.consts, q.df, IfStage(q, 7), IfStage(q, 8));
  }

  /** The code of an `and` as it grows. */
  function AndStage(q: AndParts, n: nat): seq<Instr> {
    if n == 0 then q.left.code
    else if n == 1 then AndStage(q, 0) + [Plain(JUMP_IF_FALSE, MAX_JUMP)]
    else if n == 2 then AndStage(q, 1) + One(POP)
    else if n == 3 then AndStage(q, 2) + q.right.code
    else q.left.code + q.glue + q.right.code
  }

  lemma AndStages(o: Output, q: AndParts)
    requires q.d == 1 + Size(q.right.code) && q.glue == [Plain(JUMP_IF_FALSE, q.d)] + One(POP)
    ensures AndStage(q, 0) == q.left.code && AndStage(q, 4) == q.left.code + q.glue + q.right.code
    ensures Emitted(Emitted(o, AndStage(q, 0), q.left.consts), [Plain(JUMP_IF_FALSE, MAX_JUMP)], q.left.consts) == Emitted(o, AndStage(q, 1), q.left.consts)
    ensures Emitted(Emitted(o, AndStage(q, 1), q.left.consts), One(POP), q.left.consts) == Emitted(o, AndStage(q, 2), q.left.consts)
    ensures Size(AndStage(q, 2)) == Size(q.left.code) + 4
    ensures Emitted(Emitted(o, AndStage(q, 2), q.left.consts), q.right.code, q.right.consts) == Emitted(o, AndStage(q, 3), q.right.consts)
    ensures Aims(o, q.left.code, AndStage(q, 3), q.right.consts, q.d, AndStage(q, 4))
  {
    hide Emitted;
    hide Aims;
    hide Size;
    hide OperandWidth;
    Widths();
    OneSize(POP);
    Stage(o, AndStage(q, 0), q.left.consts, JUMP_IF_FALSE, MAX_JUMP, AndStage(q, 1));
    Stage(o, AndStage(q, 1), q.left.consts, POP, 0, AndStage(q, 2));
    Part(o, AndStage(q, 2), q.left.consts, q.right, AndStage(q, 3));
    Regroup4(q.left.code, [Plain(JUMP_IF_FALSE, MAX_JUMP)], One(POP), q.right.code);
    Regroup4(q.left.code, [Plain(JUMP_IF_FALSE, q.d)], One(POP), q.right.code);
    SizeAppend(One(POP), q.right.code);
    Aimed(o, q.left.code, JUMP_IF_FALSE, One(POP) + q.right.code, q.right.consts, q.d, AndStage(q, 3), AndStage(q, 4));
  }

  /** The code of an `or` as it grows. */
  function OrStage(q: AndParts, n: nat): seq<Instr> {
    if n == 0 then q.left.code
    else if n == 1 then OrStage(q, 0) + [Plain(JUMP_IF_FALSE, MAX_JUMP)]
    else if n == 2 then OrStage(q, 1) + [Plain(JUMP, MAX_JUMP)]
    else if n == 3 then q.left.code + [Plain(JUMP_IF_FALSE, 3)] + [Plain(JUMP, MAX_JUMP)]
    else if n == 4 then OrStage(q, 3) + One(POP)
    else if n == 5 then OrStage(q, 4) + q.right.code
    else if n == 6 then q.left.code + q.glue + q.right.code
    else q.left.code + [Plain(JUMP_IF_FALSE, 3)]
  }

  lemma OrStages(o: Output, q: AndParts)
    requires q.d == 1 + Size(q.right.code) && q.glue == [Plain(JUMP_IF_FALSE, 3)] + [Plain(JUMP, q.d)] + One(POP)
    ensures OrStage(q, 0) == q.left.code
    ensures Emitted(Emitted(o, OrStage(q, 0), q.left.consts), [Plain(JUMP_IF_FALSE, MAX_JUMP)], q.left.consts) == Emitted(o, OrStage(q, 1), q.left.consts)
    ensures Size(OrStage(q, 1)) == Size(q.left.code) + 3
    ensures Emitted(Emitted(o, OrStage(q, 1), q.left.consts), [Plain(JUMP, MAX_JUMP)], q.left.consts) == Emitted(o, OrStage(q, 2), q.left.consts)
    ensures Aims(o, q.left.code, OrStage(q, 2), q.left.consts, 3, OrStage(q, 3))
    ensures Emitted(Emitted(o, OrStage(q, 3), q.left.consts), One(POP), q.left.consts) == Emitted(o, OrStage(q, 4), q.left.consts)
    ensures Size(OrStage(q, 4)) == Size(q.left.code) + 7
    ensures Emitted(Emitted(o, OrStage(q, 4), q.left.consts), q.right.code, q.right.consts) == Emitted(o, OrStage(q, 5), q.right.consts)
    ensures Size(OrStage(q, 7)) == Size(q.left.code) + 3 && Aims(o, OrStage(q, 7), OrStage(q, 5), q.right.consts, q.d, OrStage(q, 6))
  {
    hide Emitted;
    hide Aims;
    hide Size;
    hide OperandWidth;
    Widths();
    OneSize(POP);
    var jump := [Plain(JUMP, MAX_JUMP)];
    Stage(o, OrStage(q, 0), q.left.consts, JUMP_IF_FALSE, MAX_JUMP, OrStage(q, 1));
    Stage(o, OrStage(q, 1), q.left.consts, JUMP, MAX_JUMP, OrStage(q, 2));
    SizeOfPlain(JUMP, MAX_JUMP);
    Aimed(o, q.left.code, JUMP_IF_FALSE, jump, q.left.consts, 3, OrStage(q, 2), OrStage(q, 3));
    Stage(o, OrStage(q, 3), q.left.consts, POP, 0, OrStage(q, 4));
    Part(o, OrStage(q, 4), q.left.consts, q.right, OrStage(q, 5));
    var before := OrStage(q, 7);
    SizeAppend(before, jump);
    Regroup4(before, jump, One(POP), q.right.code);
    Regroup4(before, [Plain(JUMP, q.d)], One(POP), q.right.code);
    Regroup4(q.left.code, [Plain(JUMP_IF_FALSE, 3)], [Plain(JUMP, q.d)], One(POP));
    assert q.left.code + ([Plain(JUMP_IF_FALSE, 3)] + [Plain(JUMP, q.d)] + One(POP)) == before + ([Plain(JUMP, q.d)] + One(POP));
    SizeAppend(One(POP), q.right.code);
    Aimed(o, before, JUMP, One(POP) + q.right.code, q.right.consts, q.d, OrStage(q, 5), OrStage(q, 6));
  }

  /** The code of a `while` as it grows. */
  function WhileStage(q: WhilePieces, n: nat): seq<Instr> {
    if n == 0 then q.cond.code
    else if n == 1 then WhileStage(q, 0) + [Plain(JUMP_IF_FALSE, MAX_JUMP)]
    else if n == 2 then WhileStage(q, 1) + One(POP)
    else if n == 3 then WhileStage(q, 2) + q.body.code
    else if n == 4 then WhileStage(q, 3) + One(POP)
    else if n == 5 then WhileStage(q, 4) + [Plain(LOOP, q.d)]
    else if n == 6 then q.cond.code + [Plain(JUMP_IF_FALSE, q.dx)] + One(POP) + q.body.code + One(POP) + [Plain(LOOP, q.d)]
    else q.inner
  }

  lemma WhileStages(o: Output, q: WhilePieces)
    requires q.dx == Size(q.body.code) + 5 && q.d == Size(q.cond.code) + 3 + q.dx
    requires q.inner == WhileStage(q, 6) + One(POP)
    ensures WhileStage(q, 0) == q.cond.code
    ensures Emitted(Emitted(o, WhileStage(q, 0), q.cond.consts), [Plain(JUMP_IF_FALSE, MAX_JUMP)], q.cond.consts) == Emitted(o, WhileStage(q, 1), q.cond.consts)
    ensures Emitted(Emitted(o, WhileStage(q, 1), q.cond.consts), One(POP), q.cond.consts) == Emitted(o, WhileStage(q, 2), q.cond.consts)
    ensures Size(WhileStage(q, 2)) == Size(q.cond.code) + 4
    ensures Emitted(Emitted(o, WhileStage(q, 2), q.cond.consts), q.body.code, q.body.consts) == Emitted(o, WhileStage(q, 3), q.body.consts)
    ensures Emitted(Emitted(o, WhileStage(q, 3), q.body.consts), One(POP), q.body.consts) == Emitted(o, WhileStage(q, 4), q.body.consts)
    ensures Size(WhileStage(q, 4)) == q.d - 3
    ensures Emitted(Emitted(o, WhileStage(q, 4), q.body.consts), [Plain(LOOP, q.d)], q.body.consts) == Emitted(o, WhileStage(q, 5), q.body.consts)
    ensures Aims(o, q.cond.code, WhileStage(q, 5), q.body.consts, q.dx, WhileStage(q, 6))
    ensures Emitted(Emitted(o, WhileStage(q, 6), q.body.consts), One(POP), q.body.consts) == Emitted(o, q.inner, q.body.consts)
    ensures Size(q.inner) == q.d + 1
  {
    hide Emitted;
    hide Aims;
    hide Size;
    hide OperandWidth;
    Widths();
    OneSize(POP);
    var loop := [Plain(LOOP, q.d)];
    Stage(o, WhileStage(q, 0), q.cond.consts, JUMP_IF_FALSE, MAX_JUMP, WhileStage(q, 1));
    Stage(o, WhileStage(q, 1), q.cond.consts, POP, 0, WhileStage(q, 2));
    Part(o, WhileStage(q, 2), q.cond.consts, q.body, WhileStage(q, 3));
    Stage(o, WhileStage(q, 3), q.body.consts, POP, 0, WhileStage(q, 4));
    Stage(o, WhileStage(q, 4), q.body.consts, LOOP, q.d, WhileStage(q, 5));
    Regroup6(q.cond.code, [Plain(JUMP_IF_FALSE, MAX_JUMP)], One(POP), q.body.code, One(POP), loop);
    Regroup6(q.cond.code, [Plain(JUMP_IF_FALSE, q.dx)], One(POP), q.body.code, One(POP), loop);
    var after := One(POP) + q.body.code + One(POP) + loop;
    SizeAppend(One(POP) + q.body.code + One(POP), loop);
    SizeAppend(One(POP) + q.body.code, One(POP));
    SizeAppend(One(POP), q.body.code);
    SizeOfPlain(LOOP, q.d);
    Aimed(o, q.cond.code, JUMP_IF_FALSE, after, q.body.consts, q.dx, WhileStage(q, 5), WhileStage(q, 6));
    Stage(o, WhileStage(q, 6), q.body.consts, POP, 0, q.inner);
  }

  lemma {:induction false} PopsEnd(n: nat)
    ensures Pops(n) + One(POP) == Pops(n + 1)
  {
    if n > 0 {
      PopsEnd(n - 1);
      assert Pops(n) + One(POP) == One(POP) + (Pops(n - 1) + One(POP));
    }
  }

  lemma {:induction false} PopsSize(n: nat)
    ensures Size(Pops(n)) == n
  {
    hide Size;
    if n == 0 { EmptySize(); } else {
      PopsSize(n - 1);
      OneSize(POP);
      SizeAppend(One(POP), Pops(n - 1));
      Widths();
    }
  }

  lemma Regroup5<T>(a: seq<T>, b: seq<T>, c: seq<T>, d: seq<T>, e: seq<T>)
    ensures a + b + c + d + e == a + b + (c + d + e)
  {
    assert a + b + (c + d + e) == a + b + (c + d) + e;
    assert a + b + (c + d) == a + b + c + d;
  }

  lemma Regroup6<T>(a: seq<T>, b: seq<T>, c: seq<T>, d: seq<T>, e: seq<T>, f: seq<T>)
    ensures a + b + c + d + e + f == a + b + (c + d + e + f)
  {
    Regroup5(a, b, c, d, e);
    assert a + b + (c + d + e) + f == a + b + (c + d + e + f);
  }

  // ----- where the parts of a tree are compiled -----

  /** Emitting keeps a sound state sound. */
  lemma StaysSound(s: Snapshot)
    requires s.Sound()
    ensures s.out.numSlots <= s.out.maxSlots
    ensures forall ins: seq<Instr>, k: seq<Value> {:trigger s.After(ins, k)} ::
      s.After(ins, k).Sound() && s.After(ins, k).out.numSlots <= s.After(ins, k).out.maxSlots
  {
    forall ins: seq<Instr>, k: seq<Value> ensures s.After(ins, k).Sound() { PeakCoversNet(ins); }
  }

  lemma BinarySteps(s: Snapshot, e: Expr, l: Gen, g: Gen)
    requires e.Binary? && l == s.Expr(e.left) && g == s.After(l.code, l.consts).Expr(e.right)
    ensures s.Expr(e) == Gen(l.code + g.code + One(BinaryOpcode(e.bop)), g.consts, l.ok && g.ok, l.aligned && g.aligned)
  {
    hide GenExpr;
    hide Emitted;
    hide Size;
    BinaryCode(e, NamesOf(s.locals), s.out.constants, s.C(), |s.out.code|, l, g);
  }

  lemma CallSteps(s: Snapshot, e: Expr, f: Gen, a: Gen)
    requires e.Call? && f == s.Expr(e.callee) && a == s.After(f.code, f.consts).Args(e.args)
    ensures s.Expr(e) == Gen(f.code + a.code + [Plain(CALL, ArgCount(e.args))], a.consts,
                             f.ok && a.ok && ArgCount(e.args) <= MAX_ARGUMENTS, f.aligned && a.aligned)
  {
    hide GenExpr;
    hide GenArgs;
    hide Emitted;
    hide Size;
    CallCode(e, NamesOf(s.locals), s.out.constants, s.C(), |s.out.code|, f, a);
  }

  lemma ArgSteps(s: Snapshot, args: Args, f: Gen, t: Gen)
    requires args.Arg? && f == s.Expr(args.first) && t == s.After(f.code, f.consts).Args(args.rest)
    ensures s.Args(args) == Gen(f.code + t.code, t.consts, f.ok && t.ok, f.aligned && t.aligned)
  {
    hide GenExpr;
    hide GenArgs;
    hide Emitted;
    hide Size;
    ArgsCode(args, NamesOf(s.locals), s.out.constants, s.C(), |s.out.code|, f, t);
  }

  lemma NoArgSteps(s: Snapshot, args: Args)
    requires args.NoArgs?
    ensures s.Args(args) == Gen([], s.out.constants, true, true)
  {
  }

  lemma AndSteps(s: Snapshot, e: Expr, q: AndParts)
    requires e.And? && q == s.AndParts(e)
    ensures s.Expr(e) == Gen(q.left.code + q.glue + q.right.code, q.right.consts, q.left.ok && q.right.ok && q.d <= MAX_JUMP,
                             q.left.aligned && q.right.aligned)
    ensures q.left == s.Expr(e.left) && q.d == 1 + Size(q.right.code) && q.glue == [Plain(JUMP_IF_FALSE, q.d)] + One(POP)
    ensures s.After(AndStage(q, 2), q.left.consts).Expr(e.right) == q.right
  {
    hide GenExpr;
    hide Emitted;
    hide Size;
    hide OperandWidth;
    AndCode(e, NamesOf(s.locals), s.out.constants, s.C(), |s.out.code|, q);
    AndStages(s.out, q);
  }

  lemma OrSteps(s: Snapshot, e: Expr, q: AndParts)
    requires e.Or? && q == s.AndParts(e)
    ensures s.Expr(e) == Gen(OrStage(q, 6), q.right.consts, q.left.ok && q.right.ok && q.d <= MAX_JUMP,
                             q.left.aligned && q.right.aligned)
    ensures q.left == s.Expr(e.left) && q.d == 1 + Size(q.right.code)
    ensures q.glue == [Plain(JUMP_IF_FALSE, 3)] + [Plain(JUMP, q.d)] + One(POP)
    ensures s.After(OrStage(q, 4), q.left.consts).Expr(e.right) == q.right
  {
    hide GenExpr;
    hide Emitted;
    hide Size;
    hide OperandWidth;
    OrCode(e, NamesOf(s.locals), s.out.constants, s.C(), |s.out.code|, q);
    OrStages(s.out, q);
  }

  lemma IfSteps(s: Snapshot, e: Expr, q: IfParts)
    requires e.If? && q == s.IfParts(e)
    ensures s.Expr(e) == Gen(IfStage(q, 8), q.els.consts,
                             q.cond.ok && q.thn.ok && q.els.ok && q.dt <= MAX_JUMP && q.df <= MAX_JUMP,
                             q.cond.aligned && q.thn.aligned && q.els.aligned)
    ensures q.cond == s.Expr(e.cond) && q.dt == 4 + Size(q.thn.code) && q.df == 1 + Size(q.els.code)
    ensures s.After(IfStage(q, 2), q.cond.consts).Block(e.thenBody) == q.thn
    ensures s.After(IfStage(q, 6), q.thn.consts).Expr(e.elseExpr) == q.els
  {
    hide GenExpr;
    hide GenBlock;
    hide Emitted;
    hide Size;
    hide OperandWidth;
    IfCode(e, NamesOf(s.locals), s.out.constants, s.C(), |s.out.code|, q);
    IfStages(s.out, q);
  }

  lemma LoopSteps(s: Snapshot, inside: Snapshot, e: Expr, b: Gen, n: nat -> nat)
    requires s.Sound() && NothingCaptured(n) && e.Loop?
    requires inside == s.(innermostLoop := Some(LoopRecord(|s.out.code|, s.scopeDepth, true))) && b == inside.Block(e.body)
    ensures
      var d := Size(b.code) + 4;
      var inner := b.code + One(POP) + [Plain(LOOP, d)];
      && s.Expr(e) == Gen(Patch(inner, |s.out.code|, |s.out.code| + d), b.consts, b.ok && d <= MAX_JUMP, b.aligned)
      && (b.aligned ==> AllWalkable(inner, b.consts, n))
  {
    hide GenExpr;
    hide GenBlock;
    hide Size;
    hide Patch;
    hide AllWalkable;
    CountSplit(s.locals, s.scopeDepth, |s.locals|);
    LoopCode(e, NamesOf(s.locals), s.out.constants, s.C(), |s.out.code|, b);
    if b.aligned { LoopInner(e.body, NamesOf(s.locals), s.out.constants, s.C(), |s.out.code|, b, n); }
  }

  lemma WhileSteps(o: Snapshot, inside: Snapshot, s: Stmt, q: WhilePieces, n: nat -> nat)
    requires o.Sound() && NothingCaptured(n) && s.While? && q == o.WhilePieces(s)
    requires inside == o.(innermostLoop := Some(LoopRecord(|o.out.code|, o.scopeDepth, false)))
    ensures o.Stmt(s) == Gen(Patch(q.inner, |o.out.code|, |o.out.code| + q.d + 1), q.body.consts,
                             q.cond.ok && q.body.ok && q.d <= MAX_JUMP, q.cond.aligned && q.body.aligned)
    ensures q.dx == Size(q.body.code) + 5 && q.d == Size(q.cond.code) + 3 + q.dx && q.inner == WhileStage(q, 6) + One(POP)
    ensures inside.Expr(s.cond) == q.cond
    ensures inside.After(WhileStage(q, 2), q.cond.consts).Block(s.body) == q.body
    ensures q.cond.aligned && q.body.aligned ==> AllWalkable(q.inner, q.body.consts, n)
  {
    hide GenExpr;
    hide GenBlock;
    hide GenStmt;
    hide Size;
    hide Patch;
    hide AllWalkable;
    hide Emitted;
    hide OperandWidth;
    CountSplit(o.locals, o.scopeDepth, |o.locals|);
    WhileCode(s, NamesOf(o.locals), o.out.constants, o.C(), |o.out.code|, q);
    WhileStages(o.out, q);
    if q.cond.aligned && q.body.aligned { WhileInner(s, NamesOf(o.locals), o.out.constants, o.C(), |o.out.code|, q, n); }
  }

  lemma BlockSteps(s: Snapshot, inside: Snapshot, b: Body, g: Gen)
    requires s.Sound() && inside == s.(scopeDepth := s.scopeDepth + 1) && g == inside.Body(b)
    ensures s.Block(b) == Gen(g.code + Codegen.EndScope(LetCount(b)), g.consts, g.ok && LetCount(b) < MAX_INDEX, g.aligned)
  {
    hide GenBody;
    CountSplit(s.locals, s.scopeDepth, |s.locals|);
  }

  lemma StmtSteps(o: Snapshot, s: Stmt, g: Gen)
    requires (s.Discard? || s.Return?) && g == o.Expr(s.e)
    ensures o.Stmt(s) == Gen(g.code + One(if s.Discard? then POP else RETURN), g.consts,
                             g.ok && (s.Return? ==> o.inFunction), g.aligned)
  {
    hide GenExpr;
  }

  /** One declaration or statement of a body, and the state for the rest of it. */
  lemma BodySteps(s: Snapshot, b: Body)
    requires s.Sound() && s.scopeDepth > 0 && (s.innermostLoop.Some? ==> s.innermostLoop.value.scopeDepth < s.scopeDepth)
    requires b.Let? || b.Then?
    ensures
      var f, t := s.First(b), s.Next(b).Body(b.rest);
      var unused := b.Let? ==> b.name !in NamesOf(s.locals)[s.C().scopeStart..] && |s.locals| < MAX_INDEX;
      s.Body(b) == Gen(f.code + t.code, t.consts, f.ok && t.ok && unused, f.aligned && t.aligned)
  {
    hide GenExpr;
    hide GenStmt;
    hide GenBody;
    hide Size;
    hide Emitted;
    hide Sorted;
    var f, t := s.First(b), s.Next(b).Body(b.rest);
    if b.Let? {
      var l := Local(b.name, s.scopeDepth);
      CountMore(s.locals, l, s.scopeDepth - 1);
      if s.innermostLoop.Some? { CountMore(s.locals, l, s.innermostLoop.value.scopeDepth); }
      assert NamesOf(s.locals + [l]) == NamesOf(s.locals) + [b.name];
      LetCode(b, NamesOf(s.locals), s.out.constants, s.C(), |s.out.code|, f, t);
    } else {
      SeqCode(b, NamesOf(s.locals), s.out.constants, s.C(), |s.out.code|, f, t);
    }
  }

  /** Steps of a body add up. */
  lemma NextAfter(s: Snapshot, here: Snapshot, w: seq<Instr>, k: seq<Value>, b: Body)
    requires here == s.After(w, k).(locals := here.locals) && (b.Let? || b.Then?)
    requires s.scopeDepth == here.scopeDepth && Deepened(s.locals, here.locals, s.scopeDepth)
    ensures here.Next(b) == s.After(w + here.First(b).code, here.First(b).consts).(locals := here.Next(b).locals)
    ensures Deepened(s.locals, here.Next(b).locals, s.scopeDepth)
    ensures |here.Next(b).locals| + LetCount(b.rest) == |here.locals| + LetCount(b)
  {
    hide Emitted;
    hide Deepened;
    hide Snapshot.First;
    EmittedTwice(s.out, w, k, here.First(b).code, here.First(b).consts);
    if b.Let? { DeepenedMore(s.locals, here.locals, Local(b.name, s.scopeDepth)); }
  }

  lemma LastSteps(s: Snapshot, b: Body)
    requires b.Done? || b.Result?
    ensures s.Body(b) == if b.Done? then Gen(One(NIL), s.out.constants, true, true) else s.Expr(b.e)
  {
    hide GenExpr;
  }

  /** The code of one global definition or statement of a script. */
  function ScriptPiece(s: Snapshot, p: Script): Gen
    requires !p.End?
  {
    if p.Run? then s.Stmt(p.s)
    else if p.name !in s.globals then Gen([], s.out.constants, false, true)
    else
      var f := s.Expr(p.init);
      Gen(f.code + [VarLength(DEFINE_GLOBAL, s.globals[p.name])], f.consts, f.ok && s.globals[p.name] < MAX_INDEX, f.aligned)
  }

  ghost predicate AtTopLevel(s: Snapshot) {
    s.scopeDepth == 0 && s.locals == [Local("", 0)] && s.innermostLoop.None? && !s.inFunction
  }

  lemma TopLevelContext(s: Snapshot)
    requires AtTopLevel(s)
    ensures NamesOf(s.locals) == [""] && s.C() == Ctx(s.globals, false, 0, NoLoop)
  {
  }

  lemma ScriptSteps(s: Snapshot, p: Script)
    requires AtTopLevel(s) && !p.End?
    ensures
      var f := ScriptPiece(s, p);
      var t := s.After(f.code, f.consts).Script(p.next);
      && (!f.ok ==> !s.Script(p).ok) && (s.Script(p).aligned ==> f.aligned)
      && (f.ok ==> s.Script(p) == Gen(f.code + t.code, t.consts, t.ok, f.aligned && t.aligned))
  {
    hide GenExpr;
    hide GenStmt;
    hide Size;
    hide Emitted;
    TopLevelContext(s);
    hide Snapshot.C;
    hide NamesOf;
    if p.Define? && p.name in s.globals {
      SizeAppend(s.Expr(p.init).code, [VarLength(DEFINE_GLOBAL, s.globals[p.name])]);
    }
  }

  function ParameterLocals(params: seq<string>): seq<Local> {
    [Local("", 0)] + seq(|params|, i requires 0 <= i < |params| => Local(params[i], 1))
  }

  /** Parameters and body share one scope, which starts after the reserved local. */
  lemma ParameterScope(params: seq<string>)
    ensures NamesOf(ParameterLocals(params)) == [""] + params
    ensures CountUpTo(ParameterLocals(params), 0) == 1 && NamesOf(ParameterLocals(params))[1..] == params
    ensures forall p: string :: ParameterLocals(params + [p]) == ParameterLocals(params) + [Local(p, 1)]
  {
    CountSplit(ParameterLocals(params), 0, 1);
  }

  lemma TakeSorted(locals: seq<Local>, depth: int, keep: nat)
    requires Sorted(locals, depth) && keep <= |locals|
    requires forall i :: 0 <= i < keep ==> locals[i].depth < depth
    ensures Sorted(locals[..keep], depth - 1)
  {
  }

  lemma LastIndexIs(names: seq<string>, name: string, i: int)
    requires -1 <= i < |names|
    requires i >= 0 ==> names[i] == name
    requires forall j :: i < j < |names| ==> names[j] != name
    ensures LastIndex(names, name) == i
  {
  }

  lemma {:induction false} CountMore(locals: seq<Local>, l: Local, d: int)
    requires l.depth > d
    ensures CountUpTo(locals + [l], d) == CountUpTo(locals, d)
  {
    if locals != [] {
      assert (locals + [l])[1..] == locals[1..] + [l];
      CountMore(locals[1..], l, d);
    }
  }

  lemma EmittedPlain(o: Output, a: seq<Instr>, k: seq<Value>, op: OpCode, operand: nat)
    ensures Emitted(Emitted(o, a, k), [Plain(op, operand)], k) == Emitted(o, a + [Plain(op, operand)], k)
    ensures |Emitted(o, a, k).code| == |o.code| + Size(a)
    ensures |Emitted(o, a + [Plain(op, operand)], k).code| == |o.code| + Size(a) + 1 + OperandWidth(op)
    ensures Size(a + [Plain(op, operand)]) == Size(a) + 1 + OperandWidth(op)
  {
    hide Emitted;
    hide Size;
    hide OperandWidth;
    EmittedTwice(o, a, k, [Plain(op, operand)], k);
    SizeAppend(a, [Plain(op, operand)]);
    SizeOfPlain(op, operand);
  }

  lemma Widths()
    ensures OperandWidth(JUMP) == OperandWidth(JUMP_IF_FALSE) == OperandWidth(LOOP) == 2
    ensures OperandWidth(POP) == OperandWidth(NIL) == OperandWidth(RETURN) == 0
  {
  }

  lemma Regroup4<T>(a: seq<T>, b: seq<T>, c: seq<T>, d: seq<T>)
    ensures a + b + c + d == a + b + (c + d)
    ensures a + (b + c) + d == a + b + (c + d)
  {
  }
}
