/** A program that needs one slot more than the compiler counts: the machine fails its
    capacity assertion where evaluation goes on. */
module Shortage {
  import opened Bytecode
  import opened Values
  import opened Syntax
  import opened Evaluator
  import opened Codegen
  import opened CodeFacts
  import opened Slots
  import opened Pipeline
  import M = Machine

  /** `while false { } nil == nil;` as a script. */
  ghost predicate IsIdleScript(p: Script) {
    && p.Run? && IsIdle(p.s) && p.next.Run? && p.next.s.Discard? && IsTest(p.next.s.e)
    && p.next.next.End?
  }

  /** Its code: the exit jump of the loop leads to the last instruction of the loop. */
  function IdleScript(): (ins: seq<Instr>)
    ensures |ins| == 13 && forall i <- ins :: i.Plain?
  {
    [Plain(FALSE, 0), Plain(JUMP_IF_FALSE, 6), Plain(POP, 0), Plain(NIL, 0), Plain(POP, 0), Plain(LOOP, 10), Plain(POP, 0),
     Plain(NIL, 0), Plain(NIL, 0), Plain(EQUAL, 0), Plain(POP, 0), Plain(NIL, 0), Plain(RETURN, 0)]
  }

  lemma IdleCode(s: Stmt, c: Ctx)
    requires IsIdle(s)
    ensures
      GenStmt(s, [""], [], c, 0)
      == Gen(Patch(One(FALSE) + [Plain(JUMP_IF_FALSE, 6)] + One(POP) + One(NIL) + One(POP)
                   + [Plain(LOOP, 10)] + One(POP), 0, 11), [], true, true)
  {
    OneSize(FALSE);
    OneSize(NIL);
    hide Size;
    hide Patch;
    var c' := c.(loop := InLoop(0, 1, false));
    assert GenExpr(s.cond, [""], [], c', 0) == Gen(One(FALSE), [], true, true);
    assert GenBlock(s.body, [""], [], c', 5) == Gen(One(NIL), [], true, true) by {
      assert One(NIL) + EndScope(0) == One(NIL);
    }
  }

  lemma IdleStmtCode(s: Stmt, c: Ctx)
    requires IsIdle(s)
    ensures GenStmt(s, [""], [], c, 0) == Gen(IdleScript()[..7], [], true, true) && Size(IdleScript()[..7]) == 11
  {
    hide GenStmt;
    hide Size;
    hide Patch;
    IdleCode(s, c);
    var inner := One(FALSE) + [Plain(JUMP_IF_FALSE, 6)] + One(POP) + One(NIL) + One(POP) + [Plain(LOOP, 10)] + One(POP);
    assert inner == IdleScript()[..7];
    PatchIdentity(inner, 0, 11);
    IdleSize(7);
  }

  /** Where the instructions begin, as far as the run goes. */
  function Offset(k: nat): nat
    requires k <= 9
  {
    [0, 1, 4, 5, 6, 7, 10, 11, 12, 13][k]
  }

  lemma {:induction false} IdleSize(k: nat)
    requires k <= 9
    ensures Size(IdleScript()[..k]) == Offset(k)
    decreases k
  {
    hide EncodeAll;
    if k == 0 {
      EmptySize();
    } else {
      IdleSize(k - 1);
      var i := IdleScript()[k - 1];
      assert IdleScript()[..k] == IdleScript()[..k - 1] + [i];
      SizeAppend(IdleScript()[..k - 1], [i]);
      SizeOfPlain(i.op, i.operand);
    }
  }

  lemma IdleScriptCode(p: Script, globals: map<string, nat>)
    requires IsIdleScript(p)
    ensures GenScript(p, [], globals, 0) == Gen(IdleScript(), [], true, true)
  {
    hide Size;
    hide GenStmt;
    hide IsIdle;
    hide IsTest;
    hide GenScript;
    var c := Ctx(globals, false, 0, NoLoop);
    IdleStmtCode(p.s, c);
    TestStmtCode(p.next.s, c, 11);
    var head, test, end := IdleScript()[..7], [Plain(NIL, 0), Plain(NIL, 0), Plain(EQUAL, 0), Plain(POP, 0)], One(NIL) + One(RETURN);
    EndCode(p.next.next, globals, 11 + Size(test));
    RunCode(p.next, [], globals, 11, Gen(test, [], true, true), Gen(end, [], true, true));
    RunCode(p, [], globals, 0, Gen(head, [], true, true), Gen(test + end, [], true, true));
    assert IdleScript() == head + (test + end);
  }

  lemma EndCode(p: Script, globals: map<string, nat>, pos: nat)
    requires p.End?
    ensures GenScript(p, [], globals, pos) == Gen(One(NIL) + One(RETURN), [], true, true)
  {
  }

  lemma RunCode(p: Script, k: seq<Value>, globals: map<string, nat>, pos: nat, d: Gen, r: Gen)
    requires p.Run? && d == GenStmt(p.s, [""], k, Ctx(globals, false, 0, NoLoop), pos)
    requires r == GenScript(p.next, d.consts, globals, pos + Size(d.code))
    ensures GenScript(p, k, globals, pos) == Gen(d.code + r.code, r.consts, d.ok && r.ok, d.aligned && r.aligned)
  {
    hide Size;
    hide GenStmt;
  }

  lemma TestStmtCode(s: Stmt, c: Ctx, pos: nat)
    requires s.Discard? && IsTest(s.e)
    ensures GenStmt(s, [""], [], c, pos) == Gen([Plain(NIL, 0), Plain(NIL, 0), Plain(EQUAL, 0), Plain(POP, 0)], [], true, true)
  {
    hide Size;
    hide EncodeAll;
    hide Patch;
    hide GenBlock;
    hide GenStmt;
    assert GenExpr(s.e, [""], [], c, pos) == Gen(One(NIL) + One(NIL) + One(EQUAL), [], true, true);
    DiscardCode(s, c, pos);
  }

  lemma DiscardCode(s: Stmt, c: Ctx, pos: nat)
    requires s.Discard?
    ensures
      var g := GenExpr(s.e, [""], [], c, pos);
      GenStmt(s, [""], [], c, pos) == Gen(g.code + One(POP), g.consts, g.ok, g.aligned)
  {
    hide GenExpr;
  }

  /** The instruction at its place in the code. */
  lemma IdleAt(code: seq<Byte>, k: nat)
    requires code == EncodeAll(IdleScript()) && k < 9
    ensures CodeAt(code, Offset(k), [IdleScript()[k]])
  {
    hide EncodeAll;
    var ins := IdleScript();
    IdleSize(k);
    assert ins == ins[..k] + ([ins[k]] + ins[k + 1..]);
    assert code[0..|code|] == code;
    CodeAtSplit(code, 0, ins[..k], [ins[k]] + ins[k + 1..]);
    CodeAtSplit(code, Offset(k), [ins[k]], ins[k + 1..]);
  }

  predicate IsIdleCode(code: seq<Byte>) { code == EncodeAll(IdleScript()) }

  /** One step on the script's code. */
  lemma IdleStep(img: M.Image, s: M.VM, k: nat)
    requires k < 9 && s.ip == Offset(k) && IsIdleCode(img.ProtoOf(s.fn).code)
    ensures
      var i := IdleScript()[k];
      M.Run(img, s, 1) == M.Exec(img, s.(ip := s.ip + 1 + OperandWidth(i.op)), i)
  {
    hide M.Run;
    hide EncodeAll;
    var i := IdleScript()[k];
    IdleAt(img.ProtoOf(s.fn).code, k);
    PowersOf256();
    M.StepAt(img, s, i.op, i.operand);
  }

  /** After five instructions the machine has no slot left, and evaluation ends well. */
  lemma IdleLoopOverflows(prog: Program, img: M.Image, globals: map<string, nat>, globalCount: nat, self: Value, fuel: nat)
    requires IsIdleScript(prog.main) && Translated(prog, img, globals)
    ensures M.Run(img, Start(img, self, globalCount), 5) == M.Overflow
    ensures EvalScript(Context(img.fl, prog.defs, 1), fuel, prog.main, [self], World(map[], 0)) == Completed(World(map[], 0))
    ensures !CountsReach(prog)
  {
    IdleScriptCode(prog.main, globals);
    IdleHeight(prog.main);
    ScriptSlots(prog, globals);
    IdleMeaning(Context(img.fl, prog.defs, 1), fuel, prog.main, self);
    var s0 := Start(img, self, globalCount);
    assert img.script.code == EncodeAll(IdleScript()) && img.script.maxSlots == 1;
    IdleRun(img, s0);
  }

  lemma IdleHeight(p: Script)
    requires IsIdleScript(p)
    ensures HeightScript(p) == 2 && ProfileScript(p).peak == 1
  {
    hide IsIdle;
    hide IsTest;
    hide ProfileOf;
    IdleProfile(p.s, 1);
    TestProfile(p.next.s.e, 1);
    assert ProfileStmt(p.next.s, 1, Outside) == Profile(0, 2);
    assert ProfileScript(p.next.next) == Profile(1, 1) && HeightScript(p.next.next) == 1;
    assert ProfileScript(p.next) == Profile(1, 2) && HeightScript(p.next) == 2;
  }

  lemma IdleMeaning(c: Context, fuel: nat, p: Script, self: Value)
    requires IsIdleScript(p)
    ensures EvalScript(c, fuel, p, [self], World(map[], 0)) == Completed(World(map[], 0))
  {
    var w := World(map[], 0);
    assert EvalStmt(c, fuel, p.s, [""], [self], w) == Normal(Nil, [self], w);
    assert EvalStmt(c, fuel, p.next.s, [""], [self], w) == Normal(Bool(true), [self], w) by {
      assert EvalExpr(c, fuel, p.next.s.e, [""], [self], w) == Normal(Bool(true), [self], w);
    }
  }

  lemma IdleRun(img: M.Image, s: M.VM)
    requires IsIdleCode(img.ProtoOf(s.fn).code)
    requires |s.stack| == 1 && s.capacity == 2 && s.ip == 0
    ensures M.Run(img, s, 5) == M.Overflow
  {
    hide M.Run;
    hide EncodeAll;
    IdleStep(img, s, 0);
    var s1 := s.(ip := 1, stack := s.stack + [Bool(false)]);
    IdleStep(img, s1, 1);
    var s2 := s1.(ip := 10);
    IdleStep(img, s2, 6);
    var s3 := s2.(ip := 11, stack := s.stack);
    assert s1.stack[..1] == s.stack;
    IdleStep(img, s3, 7);
    var s4 := s3.(ip := 12, stack := s.stack + [Nil]);
    IdleStep(img, s4, 8);
    M.RunAppend(img, s, 1, s1, 4);
    M.RunAppend(img, s1, 1, s2, 3);
    M.RunAppend(img, s2, 1, s3, 2);
    M.RunAppend(img, s3, 1, s4, 1);
  }
}
