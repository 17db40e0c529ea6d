/** Whole programs: the machine running a compiled script against the evaluator. */
module Correctness {
  import opened Bytecode
  import opened Values
  import opened Syntax
  import opened Evaluator
  import opened Codegen
  import opened CodeFacts
  import opened M = Machine
  import opened Relation
  import opened Simulation
  import opened Slots

  /** The script is compiled, and its slot reservation covers its operand height. */
  ghost predicate CompiledScript(prog: Program, img: Image, globals: map<string, nat>) {
    var g := GenScript(prog.main, [], globals, 0);
    && g.ok && PlacedScript(prog.main)
    && img.script.code == EncodeAll(g.code) && img.script.consts == g.consts
    && HeightScript(prog.main) <= img.script.maxSlots
  }

  /** The machine as it begins to run the script: only the script's closure is on the
      stack, no global is defined, and the script's slots are reserved. */
  ghost predicate Booted(prog: Program, img: Image, globals: map<string, nat>, self: Value, s: VM) {
    && Compiled(prog, img, globals) && CompiledScript(prog, img, globals)
    && s.stack == [self] && 1 + img.script.maxSlots <= s.capacity
    && s.fn == |img.protos| && s.ip == 0 && s.base == 0 && s.frames == []
    && GlobalsAgree(globals, map[], s.globals)
  }

  ghost predicate ScriptDone(img: Image, globals: map<string, nat>, s: VM, n: nat, o: ScriptOutcome, fuel: nat) {
    var r := M.Run(img, s, n);
    match o
    case Completed(w) => r.Finished? && GlobalsAgree(globals, w.globals, r.globals)
    case Crashed(e) => r == Fault(e)
    case Unfinished => n >= fuel && r.Running?
  }

  function ScriptSite(prog: Program, img: Image, globals: map<string, nat>, capacity: nat): Site {
    Site(prog, img, globals, |img.protos|, [], [], [], [], 0, capacity)
  }

  /** The script from some point on is in place. */
  ghost predicate LoadedScript(site: Site, p: Script, k: seq<Value>, pos: nat) {
    && site == ScriptSite(site.prog, site.img, site.globals, site.capacity)
    && GenScript(p, k, site.globals, pos).ok
    && Situated(site, TopLevel(site), pos, GenScript(p, k, site.globals, pos).code, GenScript(p, k, site.globals, pos).consts)
    && PlacedScript(p) && 1 + HeightScript(p) <= site.capacity
  }

  function TopLevel(site: Site): Ctx { Ctx(site.globals, false, 0, NoLoop) }

  lemma DefineLayout(site: Site, p: Script, k: seq<Value>, pos: nat, i: Gen, def: seq<Instr>, r: Gen)
    requires p.Define? && i == GenExpr(p.init, [""], k, TopLevel(site), pos)
    requires p.name in site.globals ==> def == [VarLength(DEFINE_GLOBAL, site.globals[p.name])]
    requires r == GenScript(p.next, i.consts, site.globals, pos + Size(i.code) + Size(def))
    requires LoadedScript(site, p, k, pos)
    ensures p.name in site.globals && site.globals[p.name] < MAX_INDEX
    ensures LoadedExpr(site, TopLevel(site), p.init, [""], k, pos)
    ensures Situated(site, TopLevel(site), pos + Size(i.code), def, r.consts)
    ensures LoadedScript(site, p.next, i.consts, pos + Size(i.code) + Size(def))
  {
    hide Situated;
    hide Size;
    hide GenExpr;
    assert i.code + def + r.code == i.code + (def + r.code);
    Split(site, TopLevel(site), pos, i, def + r.code, r.consts);
    SituatedSplit(site, TopLevel(site), pos + Size(i.code), def, r.code, r.consts);
  }

  lemma RunLayout(site: Site, p: Script, k: seq<Value>, pos: nat, d: Gen, r: Gen)
    requires p.Run? && d == GenStmt(p.s, [""], k, TopLevel(site), pos)
    requires r == GenScript(p.next, d.consts, site.globals, pos + Size(d.code))
    requires LoadedScript(site, p, k, pos)
    ensures LoadedStmt(site, TopLevel(site), p.s, [""], k, pos)
    ensures LoadedScript(site, p.next, d.consts, pos + Size(d.code))
  {
    hide Situated;
    hide Size;
    hide GenStmt;
    Split(site, TopLevel(site), pos, d, r.code, r.consts);
  }

  lemma ScriptChain(img: Image, globals: map<string, nat>, s: VM, n: nat, t: VM, m: nat, o: ScriptOutcome, fuel: nat)
    requires M.Run(img, s, n) == Running(t)
    requires ScriptDone(img, globals, t, m, o, fuel)
    ensures ScriptDone(img, globals, s, n + m, o, fuel)
  {
    hide M.Run;
    hide GlobalsAgree;
    RunAppend(img, s, n, t, m);
  }

  /** The script from some point on. */
  lemma SimScript(site: Site, p: Script, k: seq<Value>, pos: nat, vals: seq<Value>, w: World, s: VM, fuel: nat) returns (n: nat)
    requires Compiled(site.prog, site.img, site.globals)
    requires LoadedScript(site, p, k, pos)
    requires |vals| == 1 && At(site, s, pos, vals, [], w)
    ensures ScriptDone(site.img, site.globals, s, n, EvalScript(site.Defs(), fuel, p, vals, w), fuel)
    decreases p, 1
  {
    hide At;
    hide Compiled;
    hide M.Run;
    hide LoadedScript;
    hide EvalExpr;
    hide EvalStmt;
    hide ScriptDone;
    match p
    case End => n := SimEnd(site, p, k, pos, vals, w, s, fuel);
    case Define(_, _, _) => n := SimDefine(site, p, k, pos, vals, w, s, fuel);
    case Run(_, _) => n := SimRun(site, p, k, pos, vals, w, s, fuel);
  }

  lemma SimDefine(site: Site, p: Script, k: seq<Value>, pos: nat, vals: seq<Value>, w: World, s: VM, fuel: nat) returns (n: nat)
    requires p.Define?
    requires Compiled(site.prog, site.img, site.globals)
    requires LoadedScript(site, p, k, pos)
    requires |vals| == 1 && At(site, s, pos, vals, [], w)
    ensures ScriptDone(site.img, site.globals, s, n, EvalScript(site.Defs(), fuel, p, vals, w), fuel)
    decreases p, 0
  {
    hide At;
    hide Compiled;
    hide Situated;
    hide M.Run;
    hide Size;
    hide EvalExpr;
    hide ScriptDone;
    hide GenExpr;
    hide GenScript;
    hide LoadedExpr;
    var c := TopLevel(site);
    var i := GenExpr(p.init, [""], k, c, pos);
    var def := if p.name in site.globals then [VarLength(DEFINE_GLOBAL, site.globals[p.name])] else [];
    var mid := pos + Size(i.code);
    var r := GenScript(p.next, i.consts, site.globals, mid + Size(def));
    var o := EvalExpr(site.Defs(), fuel, p.init, [""], vals, w);
    assert site.frames == [];
    DefineLayout(site, p, k, pos, i, def, r);
    hide LoadedScript;
    n := SimExpr(site, c, fuel, p.init, Spot([""], k, pos, vals, w, s));
    if o.Normal? {
      var t, w' := M.Run(site.img, s, n).vm, o.world.(globals := o.world.globals[p.name := o.value]);
      RunDefine(site, c, mid, p.name, r.consts, t, o.locals, o.value, o.world);
      ReachesThen(site, s, n, t, 1, mid + Size(def), o.locals, [], w');
      n := SimNextScript(site, p.next, i.consts, mid + Size(def), o.locals, w', s, n + 1, fuel);
    } else {
      AbruptScript(site, s, n, o, fuel, mid, true);
    }
  }

  lemma SimRun(site: Site, p: Script, k: seq<Value>, pos: nat, vals: seq<Value>, w: World, s: VM, fuel: nat) returns (n: nat)
    requires p.Run?
    requires Compiled(site.prog, site.img, site.globals)
    requires LoadedScript(site, p, k, pos)
    requires |vals| == 1 && At(site, s, pos, vals, [], w)
    ensures ScriptDone(site.img, site.globals, s, n, EvalScript(site.Defs(), fuel, p, vals, w), fuel)
    decreases p, 0
  {
    hide At;
    hide Compiled;
    hide Situated;
    hide M.Run;
    hide Size;
    hide EvalStmt;
    hide ScriptDone;
    hide GenStmt;
    hide GenScript;
    hide LoadedStmt;
    var c := TopLevel(site);
    var d := GenStmt(p.s, [""], k, c, pos);
    var mid := pos + Size(d.code);
    var o := EvalStmt(site.Defs(), fuel, p.s, [""], vals, w);
    assert site.frames == [];
    RunLayout(site, p, k, pos, d, GenScript(p.next, d.consts, site.globals, mid));
    hide LoadedScript;
    n := SimStmt(site, c, fuel, p.s, Spot([""], k, pos, vals, w, s));
    if o.Normal? {
      n := SimNextScript(site, p.next, d.consts, mid, o.locals, o.world, s, n, fuel);
    } else {
      AbruptScript(site, s, n, o, fuel, mid, false);
    }
  }

  lemma SimNextScript(site: Site, p: Script, k: seq<Value>, pos: nat, vals: seq<Value>, w: World, s: VM, n: nat, fuel: nat) returns (m: nat)
    requires Compiled(site.prog, site.img, site.globals)
    requires LoadedScript(site, p, k, pos)
    requires |vals| == 1 && Reaches(site, s, n, pos, vals, [], w)
    ensures ScriptDone(site.img, site.globals, s, m, EvalScript(site.Defs(), fuel, p, vals, w), fuel)
    decreases p, 2
  {
    hide At;
    hide Compiled;
    hide M.Run;
    hide EvalScript;
    hide LoadedScript;
    hide ScriptDone;
    var t := M.Run(site.img, s, n).vm;
    m := SimScript(site, p, k, pos, vals, w, t, fuel);
    ScriptChain(site.img, site.globals, s, n, t, m, EvalScript(site.Defs(), fuel, p, vals, w), fuel);
    m := n + m;
  }

  /** At top level only errors and exhausted fuel end a part early. */
  lemma AbruptScript(site: Site, s: VM, n: nat, o: Outcome, fuel: nat, ip: nat, b: bool)
    requires site.frames == [] && !o.Normal?
    requires Simulates(site, TopLevel(site), s, n, o, fuel, ip, b)
    ensures ScriptDone(site.img, site.globals, s, n, if o.Failed? then Crashed(o.error) else Unfinished, fuel)
  {
    hide M.Run;
  }

  /** The end of the script: a nil result, and the return that leaves an empty stack. */
  lemma SimEnd(site: Site, p: Script, k: seq<Value>, pos: nat, vals: seq<Value>, w: World, s: VM, fuel: nat) returns (n: nat)
    requires p.End? && LoadedScript(site, p, k, pos)
    requires |vals| == 1 && At(site, s, pos, vals, [], w)
    ensures ScriptDone(site.img, site.globals, s, n, Completed(w), fuel)
  {
    hide Situated;
    hide GlobalsAgree;
    hide M.Run;
    hide Size;
    n := 2;
    var c := TopLevel(site);
    SituatedSplit(site, c, pos, One(NIL), One(RETURN), k);
    OneSize(NIL);
    RunPush(site, c, pos, NIL, 0, k, s, vals, Nil, w);
    var t := M.Run(site.img, s, 1).vm;
    LastReturn(site, c, pos + 1, k, t, vals, w);
    RunAppend(site.img, s, 1, t, 1);
  }

  lemma LastReturn(site: Site, c: Ctx, pos: nat, k: seq<Value>, s: VM, vals: seq<Value>, w: World)
    requires site == ScriptSite(site.prog, site.img, site.globals, site.capacity)
    requires Situated(site, c, pos, One(RETURN), k)
    requires |vals| == 1 && At(site, s, pos, vals, [Nil], w)
    ensures M.Run(site.img, s, 1) == Finished(s.globals)
  {
    hide Situated;
    hide GlobalsAgree;
    hide M.Run;
    StepPlain(site, c, pos, RETURN, 0, k, s);
  }

  // ----- the theorems -----

  /** The machine realises what the evaluator says of the script: it finishes with the
      same globals, stops with the same error, or is still running after `fuel` steps. */
  lemma ScriptCorrect(prog: Program, img: Image, globals: map<string, nat>, self: Value, s: VM, fuel: nat) returns (n: nat)
    requires Booted(prog, img, globals, self, s)
    ensures ScriptDone(img, globals, s, n,
                       EvalScript(Context(img.fl, prog.defs, 1), fuel, prog.main, [self], World(map[], s.serial)), fuel)
  {
    hide Compiled;
    hide GlobalsAgree;
    hide M.Run;
    hide EvalScript;
    var site := ScriptSite(prog, img, globals, s.capacity);
    ScriptLoaded(site);
    assert [] + [self] + [] + [] == [self];
    hide LoadedScript;
    n := SimScript(site, prog.main, [], 0, [self], World(map[], s.serial), s, fuel);
  }

  lemma ScriptLoaded(site: Site)
    requires site == ScriptSite(site.prog, site.img, site.globals, site.capacity)
    requires CompiledScript(site.prog, site.img, site.globals)
    requires 1 + HeightScript(site.prog.main) <= site.capacity
    ensures LoadedScript(site, site.prog.main, [], 0)
  {
    hide GenScript;
    hide Size;
    var g := GenScript(site.prog.main, [], site.globals, 0);
    ScriptNoHoles(site.prog.main, [], site.globals, 0);
    PatchIdentity(g.code, 0, site.loopEnd);
    assert site.Code() == EncodeAll(g.code);
    hide EncodeAll;
    hide Patch;
    assert site.Code()[0..|EncodeAll(g.code)|] == EncodeAll(g.code);
  }

  lemma {:induction false} HaltedStays(img: Image, s: VM, m: nat, n: nat)
    requires m <= n && !M.Run(img, s, m).Running?
    ensures M.Run(img, s, n) == M.Run(img, s, m)
    decreases m
  {
    hide M.Step;
    if m > 0 {
      match M.Step(img, s)
      case Running(t) => HaltedStays(img, t, m - 1, n - 1);
      case _ =>
    }
  }

  /** And it does nothing else. However long the machine runs, it neither gets stuck nor
      fails the capacity assertion; and when it has halted after `m` steps, evaluation
      with any fuel above `m` has reached the same end. */
  lemma MachineIsEvaluator(prog: Program, img: Image, globals: map<string, nat>, self: Value, s: VM, m: nat, fuel: nat)
    requires Booted(prog, img, globals, self, s) && fuel > m
    ensures
      var r := M.Run(img, s, m);
      var o := EvalScript(Context(img.fl, prog.defs, 1), fuel, prog.main, [self], World(map[], s.serial));
      match r
      case Running(_) => true
      case Fault(e) => o == Crashed(e)
      case Finished(gs) => o.Completed? && GlobalsAgree(globals, o.world.globals, gs)
      case Overflow => false
      case Stuck => false
  {
    hide M.Run;
    hide EvalScript;
    hide Booted;
    hide GlobalsAgree;
    var n := ScriptCorrect(prog, img, globals, self, s, fuel);
    if !M.Run(img, s, m).Running? {
      if m <= n {
        HaltedStays(img, s, m, n);
      } else {
        HaltedStays(img, s, n, m);
      }
    }
  }

  // ----- slot reservation of loop-free functions -----

  /** A function without `while` and `loop` that the compiler accepts reserves enough
      slots, so the capacity assertion never fails in it. */
  lemma LoopFreeReserves(def: FnDef, globals: map<string, nat>, p: Proto)
    requires GenFunction(def, globals).ok && PlacedBody(def.body)
    requires DriftFunction(def).short == 0
    requires p == Proto(|def.params|, EncodeAll(GenFunction(def, globals).code), GenFunction(def, globals).consts, MaxSlots(def, globals))
    ensures CompiledFunction(def, p, globals)
  {
    hide GenFunction;
    hide EncodeAll;
    hide MaxSlots;
    hide DriftFunction;
    ReservationCovers(def, globals);
  }

  // ----- why locals may not be declared above pending operands -----

  /** `a + { let x = b; x }` */
  predicate DeclaresAbovePending(e: Expr, x: string, a: int, b: int) {
    && e.Binary? && e.bop == Add && e.left == Literal(Int(a)) && e.right.Block?
    && e.right.body.Let? && e.right.body.name == x && e.right.body.init == Literal(Int(b))
    && e.right.body.rest.Result? && e.right.body.rest.e == Variable(x)
  }

  lemma MisreadCode(e: Expr, x: string, a: int, b: int, k: seq<Value>, c: Ctx, pos: nat, ca: Gen, cb: Gen)
    requires DeclaresAbovePending(e, x, a, b) && x != ""
    requires ca == GenLiteral(k, Int(a)) && cb == GenLiteral(ca.consts, Int(b))
    ensures
      GenExpr(e, [""], k, c, pos).code
      == ca.code + cb.code + [Plain(GET_LOCAL, 1)] + EndScope(1) + One(ADD)
    ensures GenExpr(e, [""], k, c, pos).consts == cb.consts
    ensures GenExpr(e, [""], k, c, pos).ok ==> ca.ok && cb.ok
  {
    hide Size;
    hide GenLiteral;
    var names, body, mid := [""] + [x], e.right.body, pos + Size(ca.code);
    var c' := c.(scopeStart := 1);
    assert LastIndex(names, x) == 1;
    assert GenExpr(e.left, [""], k, c, pos) == ca;
    assert GenExpr(body.init, [""], ca.consts, c', mid) == cb;
    var last := GenBody(body.rest, names, cb.consts, c', mid + Size(cb.code));
    assert GenExpr(body.rest.e, names, cb.consts, c', mid + Size(cb.code)).code == [Plain(GET_LOCAL, 1)];
    assert last.code == [Plain(GET_LOCAL, 1)] && last.consts == cb.consts;
    var g := GenBody(body, [""], ca.consts, c', mid);
    assert g.code == cb.code + [Plain(GET_LOCAL, 1)] && g.consts == cb.consts && (g.ok ==> cb.ok);
    var r := GenBlock(body, [""], ca.consts, c, mid);
    assert LetCount(body.rest) == 0 && LetCount(body) == 1;
    assert r.code == g.code + EndScope(1);
    assert GenExpr(e.right, [""], ca.consts, c, mid) == r;
    assert ca.code + (cb.code + [Plain(GET_LOCAL, 1)] + EndScope(1)) + One(ADD)
        == ca.code + cb.code + [Plain(GET_LOCAL, 1)] + EndScope(1) + One(ADD);
  }

  /** The block reads slot 1, which is where the pending `a` lies: the machine computes
      `a + a` where the meaning is `a + b`. */
  lemma PendingOperandMisread(site: Site, c: Ctx, e: Expr, x: string, a: int, b: int, k: seq<Value>, pos: nat, f: Value, w: World, s: VM, fuel: nat)
    requires DeclaresAbovePending(e, x, a, b) && x != "" && site.pend == []
    requires GenExpr(e, [""], k, c, pos).ok
    requires Situated(site, c, pos, GenExpr(e, [""], k, c, pos).code, GenExpr(e, [""], k, c, pos).consts)
    requires At(site, s, pos, [f], [], w) && |site.low| + 4 <= site.capacity
    ensures Reaches(site, s, 5, pos + Size(GenExpr(e, [""], k, c, pos).code), [f], [Int(a + a)], w)
    ensures EvalExpr(site.Defs(), fuel, e, [""], [f], w) == Normal(Int(a + b), [f], w)
  {
    hide EvalExpr;
    hide GenExpr;
    hide GenLiteral;
    hide Situated;
    hide At;
    hide M.Run;
    hide Size;
    hide DeclaresAbovePending;
    MisreadMeaning(site.Defs(), fuel, e, x, a, b, f, w);
    var ca := GenLiteral(k, Int(a));
    var cb := GenLiteral(ca.consts, Int(b));
    MisreadCode(e, x, a, b, k, c, pos, ca, cb);
    MisreadRun(site, c, a, b, k, pos, f, w, s, ca, cb);
  }

  lemma MisreadMeaning(d: Context, fuel: nat, e: Expr, x: string, a: int, b: int, f: Value, w: World)
    requires DeclaresAbovePending(e, x, a, b) && x != ""
    ensures EvalExpr(d, fuel, e, [""], [f], w) == Normal(Int(a + b), [f], w)
  {
    var names, vals, body := [""] + [x], [f] + [Int(b)], e.right.body;
    assert LastIndex(names, x) == 1;
    assert EvalExpr(d, fuel, body.init, [""], [f], w) == Normal(Int(b), [f], w);
    assert EvalExpr(d, fuel, body.rest.e, names, vals, w) == Normal(Int(b), vals, w);
    assert EvalBody(d, fuel, body.rest, names, vals, w) == Normal(Int(b), vals, w);
    assert EvalBody(d, fuel, body, [""], [f], w) == Normal(Int(b), vals, w);
    assert EvalExpr(d, fuel, e.left, [""], [f], w) == Normal(Int(a), [f], w);
    assert ([f] + [Int(b)])[..1] == [f];
  }

  lemma MisreadRun(site: Site, c: Ctx, a: int, b: int, k: seq<Value>, pos: nat, f: Value, w: World, s: VM, ca: Gen, cb: Gen)
    requires ca == GenLiteral(k, Int(a)) && cb == GenLiteral(ca.consts, Int(b)) && ca.ok && cb.ok
    requires Situated(site, c, pos, ca.code + cb.code + [Plain(GET_LOCAL, 1)] + EndScope(1) + One(ADD), cb.consts)
    requires site.pend == [] && At(site, s, pos, [f], [], w) && |site.low| + 4 <= site.capacity
    ensures Reaches(site, s, 5, pos + Size(ca.code + cb.code + [Plain(GET_LOCAL, 1)] + EndScope(1) + One(ADD)), [f], [Int(a + a)], w)
  {
    hide At;
    hide Situated;
    hide M.Run;
    hide Size;
    hide GenLiteral;
    hide EndScope;
    var get := [Plain(GET_LOCAL, 1)];
    SituatedSplit(site, c, pos, ca.code + cb.code + get + EndScope(1), One(ADD), cb.consts);
    SituatedSplit(site, c, pos, ca.code + cb.code + get, EndScope(1), cb.consts);
    SituatedSplit(site, c, pos, ca.code + cb.code, get, cb.consts);
    Split(site, c, pos, ca, cb.code, cb.consts);
    var p1 := pos + Size(ca.code);
    var p2 := p1 + Size(cb.code);
    var p3 := p2 + Size(get);
    var p4 := p3 + Size(EndScope(1));
    RunZero(site.img, s);
    PushConstant(site, c, pos, k, Int(a), s, 0, s, [f], w);
    var t := M.Run(site.img, s, 1).vm;
    DeclareLocal(site, t, p1, [f], Int(a), w);
    PushConstant(site, c, p1, ca.consts, Int(b), s, 1, t, [f] + [Int(a)], w);
    t := M.Run(site.img, s, 2).vm;
    DeclareLocal(site, t, p2, [f] + [Int(a)], Int(b), w);
    var vals := [f] + [Int(a)] + [Int(b)];
    assert Encodable(Plain(GET_LOCAL, 1)) by { PowersOf256(); }
    RunPush(site, c, p2, GET_LOCAL, 1, cb.consts, t, vals, Int(a), w);
    ReachesThen(site, s, 2, t, 1, p3, vals, [Int(a)], w);
    t := M.Run(site.img, s, 3).vm;
    CloseScope(site, c, p3, 1, cb.consts, t, vals, Int(a), w);
    assert vals[..2] == [f] + [Int(a)];
    ReachesThen(site, s, 3, t, 1, p4, [f] + [Int(a)], [Int(a)], w);
    t := M.Run(site.img, s, 4).vm;
    assert At(site, t, p4, [f], [Int(a), Int(a)], w) by { Undeclare(site, t, p4, [f], Int(a), Int(a), w); }
    OneSize(ADD);
    assert One(BinaryOpcode(Add)) == One(ADD);
    RunBinary(site, c, p4, Add, cb.consts, t, [f], Int(a), Int(a), w, 0);
    ReachesThen(site, s, 4, t, 1, p4 + 1, [f], [Int(a + a)], w);
  }

  lemma Undeclare(site: Site, s: VM, pos: nat, vals: seq<Value>, v: Value, u: Value, w: World)
    requires site.pend == [] && At(site, s, pos, vals + [v], [u], w)
    ensures At(site, s, pos, vals, [v, u], w)
  {
    hide GlobalsAgree;
    assert site.low + (vals + [v]) + [] + [u] == site.low + vals + [] + [v, u];
  }

  lemma PushConstant(site: Site, c: Ctx, pos: nat, k: seq<Value>, v: Value, s: VM, n: nat, t: VM, vals: seq<Value>, w: World)
    requires v.Int? && GenLiteral(k, v).ok && site.pend == []
    requires Situated(site, c, pos, GenLiteral(k, v).code, GenLiteral(k, v).consts)
    requires M.Run(site.img, s, n) == Running(t) && At(site, t, pos, vals, [], w)
    requires |site.low| + |vals| < site.capacity
    ensures Reaches(site, s, n + 1, pos + Size(GenLiteral(k, v).code), vals, [v], w)
  {
    hide At;
    hide Situated;
    hide M.Run;
    hide Size;
    hide GenLiteral;
    hide Encodable;
    LiteralFacts(v, k);
    var g := GenLiteral(k, v);
    var ins := g.code[0];
    assert g.code == [Plain(ins.op, ins.operand)];
    RunPush(site, c, pos, ins.op, ins.operand, g.consts, t, vals, v, w);
    ReachesThen(site, s, n, t, 1, pos + Size(g.code), vals, [v], w);
  }
}
