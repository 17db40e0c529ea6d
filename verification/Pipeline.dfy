/** From trees to results: the parser's methods compile every function and the script, the
    dispatch loop runs the bytes, and what comes out is what the evaluator says. */
module Pipeline {
  import opened Bytecode
  import opened Values
  import opened Syntax
  import opened Evaluator
  import opened Codegen
  import opened CodeFacts
  import opened Slots
  import opened LoopWalk
  import opened Staging
  import opened Relation
  import opened Correctness
  import Emitter
  import Interpreter
  import M = Machine
  import Capacity
  import A = Acceptance

  // ----- programs -----

  function ScriptCode(prog: Program, globals: map<string, nat>): Gen {
    GenScript(prog.main, [], globals, 0)
  }

  function ScriptSlotsReserved(prog: Program, globals: map<string, nat>): nat {
    Peak(ScriptCode(prog, globals).code)
  }

  /** No error is reported anywhere. */
  ghost predicate Accepted(prog: Program, globals: map<string, nat>) {
    ScriptCode(prog, globals).ok && forall f :: 0 <= f < |prog.defs| ==> GenFunction(prog.defs[f], globals).ok
  }

  /** An accepted program is legal, and a legal program is accepted if its branches and loops
      are at most 65535 bytes long and its indices stay below 2^24. */
  lemma AcceptedIff(prog: Program, globals: map<string, nat>)
    ensures Accepted(prog, globals) ==> A.LegalProgram(prog, globals.Keys)
    ensures A.LegalProgram(prog, globals.Keys) && A.FitsProgram(prog) && A.GlobalsFit(globals) ==> Accepted(prog, globals)
  {
    hide GenFunction;
    hide GenScript;
    hide A.LegalFunction;
    hide A.LegalScript;
    hide A.FitsFunction;
    hide A.FitsScript;
    A.ScriptAccepted(prog.main, [], globals, 0);
    forall f | 0 <= f < |prog.defs|
      ensures GenFunction(prog.defs[f], globals).ok ==> A.LegalFunction(prog.defs[f], globals.Keys)
      ensures A.LegalFunction(prog.defs[f], globals.Keys) && A.FitsFunction(prog.defs[f]) && A.GlobalsFit(globals) ==> GenFunction(prog.defs[f], globals).ok
    {
      A.FunctionAccepted(prog.defs[f], globals);
    }
  }

  /** Supported are at least the programs whose right operands and call arguments contain no
      blocks, and that have at most 256 constants in each function. */
  lemma SupportedByTrees(prog: Program, globals: map<string, nat>)
    requires A.FlatOperandsIn(prog) && A.FewConstantsIn(prog)
    ensures Supported(prog, globals)
  {
    hide A.FlatOperandsScript;
    hide A.FlatOperandsBody;
    hide PlacedScript;
    hide PlacedBody;
    hide GenScript;
    hide GenBody;
    A.ScriptPlaced(prog.main);
    A.ScriptAligned(prog.main, [], globals, 0);
    forall f | 0 <= f < |prog.defs| ensures SupportedFunction(prog.defs[f], globals) {
      var def := prog.defs[f];
      A.BodyPlaced(def.body);
      A.BodyAligned(def.body, [""] + def.params, [], Ctx(globals, true, 1, NoLoop), 0);
    }
  }

  /** Nothing declares locals, or leaves a loop, above pending operands; and closures in
      loops have short constant indices. */
  ghost predicate Supported(prog: Program, globals: map<string, nat>) {
    && PlacedScript(prog.main) && ScriptCode(prog, globals).aligned
    && forall f :: 0 <= f < |prog.defs| ==> SupportedFunction(prog.defs[f], globals)
  }

  ghost predicate SupportedFunction(def: FnDef, globals: map<string, nat>) {
    PlacedBody(def.body) && GenFunction(def, globals).aligned
  }

  /** The counted slots are enough. */
  ghost predicate Reserved(prog: Program, globals: map<string, nat>) {
    && HeightScript(prog.main) <= ScriptSlotsReserved(prog, globals)
    && forall f :: 0 <= f < |prog.defs| ==> HeightBody(prog.defs[f].body) <= MaxSlots(prog.defs[f], globals)
  }

  /** The running counts over the trees reach their heights. */
  predicate CountsReach(prog: Program) {
    && HeightScript(prog.main) <= ProfileScript(prog.main).peak
    && forall f :: 0 <= f < |prog.defs| ==> HeightBody(prog.defs[f].body) <= ProfileFunction(prog.defs[f]).peak
  }

  /** The script's reservation is exactly the peak of the tree's running count, which
      strays from the true height by at most the drift of the tree. */
  lemma ScriptSlots(prog: Program, globals: map<string, nat>)
    requires ScriptCode(prog, globals).ok
    ensures ScriptSlotsReserved(prog, globals) == ProfileScript(prog.main).peak
    ensures HeightScript(prog.main) <= ScriptSlotsReserved(prog, globals) + DriftScript(prog.main).short
    ensures ScriptSlotsReserved(prog, globals) <= HeightScript(prog.main) + DriftScript(prog.main).over
  {
    hide GenScript;
    hide Peak;
    hide Net;
    hide ProfileScript;
    ScriptProfile(prog.main, [], globals, 0);
    ScriptNear(prog.main);
  }

  /** Whether the slots are enough shows in the trees. */
  lemma ReservedIff(prog: Program, globals: map<string, nat>)
    requires Accepted(prog, globals)
    ensures Reserved(prog, globals) <==> CountsReach(prog)
  {
    hide GenFunction;
    hide GenScript;
    hide MaxSlots;
    hide ProfileFunction;
    hide ProfileScript;
    hide ScriptSlotsReserved;
    ScriptSlots(prog, globals);
    forall f | 0 <= f < |prog.defs| ensures MaxSlots(prog.defs[f], globals) == ProfileFunction(prog.defs[f]).peak {
      ReservedExactly(prog.defs[f], globals);
    }
  }

  /** Different globals have different indices. */
  ghost predicate Numbered(globals: map<string, nat>, count: nat) {
    && (forall m, n :: m in globals && n in globals && m != n ==> globals[m] != globals[n])
    && (forall n :: n in globals ==> globals[n] < count)
  }

  /** Programs without loops always have enough. */
  lemma LoopFreeIsReserved(prog: Program, globals: map<string, nat>)
    requires Accepted(prog, globals)
    requires DriftScript(prog.main).short == 0
    requires forall f :: 0 <= f < |prog.defs| ==> DriftFunction(prog.defs[f]).short == 0
    ensures Reserved(prog, globals) && CountsReach(prog)
  {
    hide GenFunction;
    hide GenScript;
    hide MaxSlots;
    hide HeightBody;
    hide HeightScript;
    hide DriftFunction;
    hide DriftScript;
    hide CountsReach;
    hide ScriptSlotsReserved;
    ScriptSlots(prog, globals);
    forall f | 0 <= f < |prog.defs| ensures HeightBody(prog.defs[f].body) <= MaxSlots(prog.defs[f], globals) {
      ReservationCovers(prog.defs[f], globals);
    }
    ReservedIff(prog, globals);
  }

  // ----- compiling -----

  method CompileFunction(def: FnDef, globals: map<string, nat>) returns (p: Option<M.Proto>)
    requires SupportedFunction(def, globals)
    ensures p.Some? <==> GenFunction(def, globals).ok
    ensures p.Some? ==> A.LegalFunction(def, globals.Keys)
    ensures A.LegalFunction(def, globals.Keys) && A.FitsFunction(def) && A.GlobalsFit(globals) ==> p.Some?
    ensures p.Some? ==>
      p.value == M.Proto(|def.params|, EncodeAll(GenFunction(def, globals).code), GenFunction(def, globals).consts, MaxSlots(def, globals))
  {
    hide GenFunction;
    hide EncodeAll;
    hide MaxSlots;
    hide A.LegalFunction;
    hide A.FitsFunction;
    A.FunctionAccepted(def, globals);
    var parser := new Emitter.Parser.Begin(globals, true, _ => 0);
    var r := parser.FunctionBody(def);
    if r.Rejected? { return None; }
    return Some(M.Proto(|def.params|, parser.out.code, parser.out.constants, parser.out.maxSlots as nat));
  }

  method CompileScript(prog: Program, globals: map<string, nat>) returns (p: Option<M.Proto>)
    requires PlacedScript(prog.main) && ScriptCode(prog, globals).aligned
    ensures p.Some? <==> ScriptCode(prog, globals).ok
    ensures p.Some? ==> A.LegalScript(prog.main, globals.Keys)
    ensures A.LegalScript(prog.main, globals.Keys) && A.FitsScript(prog.main) && A.ScriptBytes(prog.main) + 1 < 0x100_0000 && A.GlobalsFit(globals) ==> p.Some?
    ensures p.Some? ==>
      p.value == M.Proto(0, EncodeAll(ScriptCode(prog, globals).code), ScriptCode(prog, globals).consts, ScriptSlotsReserved(prog, globals))
  {
    hide GenScript;
    hide EncodeAll;
    hide Peak;
    hide Net;
    hide A.LegalScript;
    hide A.FitsScript;
    A.ScriptAccepted(prog.main, [], globals, 0);
    var parser := new Emitter.Parser.Begin(globals, false, _ => 0);
    assert parser.Now().Script(prog.main) == ScriptCode(prog, globals);
    var r := parser.ScriptBody(prog.main);
    if r.Rejected? { return None; }
    assert [] + EncodeAll(ScriptCode(prog, globals).code) == EncodeAll(ScriptCode(prog, globals).code);
    return Some(M.Proto(0, parser.out.code, parser.out.constants, parser.out.maxSlots as nat));
  }

  /** The image is what the compiler makes of the program, slot counts included. */
  ghost predicate Translated(prog: Program, img: M.Image, globals: map<string, nat>) {
    && img.script == M.Proto(0, EncodeAll(ScriptCode(prog, globals).code), ScriptCode(prog, globals).consts, ScriptSlotsReserved(prog, globals))
    && |img.protos| == |prog.defs|
    && forall f :: 0 <= f < |prog.defs| ==> img.protos[f] == Translation(prog.defs[f], globals)
  }

  function Translation(def: FnDef, globals: map<string, nat>): M.Proto {
    var g := GenFunction(def, globals);
    M.Proto(|def.params|, EncodeAll(g.code), g.consts, MaxSlots(def, globals))
  }

  /** The whole program; None if an error was reported. */
  method Compile(prog: Program, globals: map<string, nat>, fl: FloatOps) returns (img: Option<M.Image>)
    requires Supported(prog, globals)
    ensures img.Some? <==> Accepted(prog, globals)
    ensures img.Some? ==> A.LegalProgram(prog, globals.Keys)
    ensures A.LegalProgram(prog, globals.Keys) && A.FitsProgram(prog) && A.GlobalsFit(globals) ==> img.Some?
    ensures img.Some? ==> Translated(prog, img.value, globals) && img.value.fl == fl
  {
    hide GenFunction;
    hide GenScript;
    hide EncodeAll;
    hide MaxSlots;
    hide PlacedBody;
    hide PlacedScript;
    hide ScriptSlotsReserved;
    hide A.LegalProgram;
    hide A.FitsProgram;
    AcceptedIff(prog, globals);
    var protos: seq<M.Proto> := [];
    for i := 0 to |prog.defs|
      invariant |protos| == i
      invariant forall f :: 0 <= f < i ==> GenFunction(prog.defs[f], globals).ok && protos[f] == Translation(prog.defs[f], globals)
    {
      var p := CompileFunction(prog.defs[i], globals);
      if p.None? { return None; }
      protos := protos + [p.value];
    }
    var script := CompileScript(prog, globals);
    if script.None? { return None; }
    return Some(M.Image(protos, script.value, fl));
  }

  /** The same image with as many slots reserved as the trees need. */
  function Enlarged(prog: Program, img: M.Image): M.Image
    requires |img.protos| == |prog.defs|
  {
    M.Image(seq(|prog.defs|, f requires 0 <= f < |prog.defs| => Roomy(img.protos[f], HeightBody(prog.defs[f].body))),
            Roomy(img.script, HeightScript(prog.main)), img.fl)
  }

  function Roomy(p: M.Proto, height: nat): M.Proto {
    p.(maxSlots := if height > p.maxSlots then height else p.maxSlots)
  }

  lemma EnlargedIsCompiled(prog: Program, img: M.Image, globals: map<string, nat>)
    requires Supported(prog, globals) && Accepted(prog, globals) && Translated(prog, img, globals)
    ensures Compiled(prog, Enlarged(prog, img), globals) && CompiledScript(prog, Enlarged(prog, img), globals)
    ensures Capacity.Looser(img, Enlarged(prog, img))
  {
    hide GenFunction;
    hide GenScript;
    hide EncodeAll;
    hide MaxSlots;
    hide PlacedBody;
    hide PlacedScript;
    hide HeightBody;
    hide HeightScript;
    hide ScriptSlotsReserved;
  }

  lemma ReservedIsCompiled(prog: Program, img: M.Image, globals: map<string, nat>)
    requires Supported(prog, globals) && Accepted(prog, globals) && Translated(prog, img, globals) && Reserved(prog, globals)
    ensures Compiled(prog, img, globals) && CompiledScript(prog, img, globals)
  {
    hide GenFunction;
    hide GenScript;
    hide EncodeAll;
    hide MaxSlots;
    hide PlacedBody;
    hide PlacedScript;
    hide HeightBody;
    hide HeightScript;
    hide ScriptSlotsReserved;
  }

  // ----- running -----

  /** What running a program for at most `limit` instructions may come to, given what
      evaluation with this much fuel says. It runs out of slots only if the counts over
      its trees do not reach their heights. */
  ghost predicate Means(r: M.Status, o: ScriptOutcome, prog: Program, globals: map<string, nat>) {
    match r
    case Running(_) => true
    case Fault(e) => o == Crashed(e)
    case Finished(gs) => o.Completed? && GlobalsAgree(globals, o.world.globals, gs)
    case Overflow => !CountsReach(prog)
    case Stuck => false
  }

  /** The machine before its first instruction. */
  function Start(img: M.Image, self: Value, globalCount: nat): M.VM {
    M.VM([self], 1 + img.script.maxSlots, |img.protos|, 0, 0, [], seq(globalCount, _ => None), 0)
  }

  /** With the slots that the compiler reserved, be they enough or not. */
  lemma RunMeans(prog: Program, img: M.Image, globals: map<string, nat>, globalCount: nat, self: Value, m: nat, fuel: nat)
    requires Supported(prog, globals) && Accepted(prog, globals) && Translated(prog, img, globals) && Numbered(globals, globalCount)
    requires fuel > m
    ensures Means(M.Run(img, Start(img, self, globalCount), m),
                  EvalScript(Context(img.fl, prog.defs, 1), fuel, prog.main, [self], World(map[], 0)), prog, globals)
  {
    hide Supported;
    hide Accepted;
    hide EvalScript;
    hide M.Run;
    hide Reserved;
    hide CountsReach;
    ReservedIff(prog, globals);
    var s, big := Start(img, self, globalCount), Enlarged(prog, img);
    var t := Start(big, self, globalCount);
    assert GlobalsAgree(globals, map[], s.globals);
    if Reserved(prog, globals) {
      ReservedIsCompiled(prog, img, globals);
      hide Compiled;
      hide CompiledScript;
      assert Booted(prog, img, globals, self, s);
      MachineIsEvaluator(prog, img, globals, self, s, m, fuel);
    } else {
      EnlargedIsCompiled(prog, img, globals);
      hide Compiled;
      hide CompiledScript;
      assert Booted(prog, big, globals, self, t);
      MachineIsEvaluator(prog, big, globals, self, t, m, fuel);
      Capacity.RunAlike(img, big, s, t, m);
    }
  }

  /** Compiles and runs a program. It is refused exactly when an error is reported. It
      never gets stuck, and it runs out of reserved slots only if the counts over its trees
      say so; if it halts otherwise, evaluation with any more fuel than instructions has
      the same globals or the same error. */
  method CompileAndRun(prog: Program, globals: map<string, nat>, globalCount: nat, fl: FloatOps, self: Value, limit: nat)
    returns (r: Option<Interpreter.Flow>)
    requires Supported(prog, globals) && Numbered(globals, globalCount)
    ensures r.Some? <==> Accepted(prog, globals)
    ensures r.Some? ==> A.LegalProgram(prog, globals.Keys)
    ensures A.LegalProgram(prog, globals.Keys) && A.FitsProgram(prog) && A.GlobalsFit(globals) ==> r.Some?
    ensures r.Some? && r.value.Halt? ==> forall fuel: nat :: fuel > limit ==>
      Means(r.value.status, EvalScript(Context(fl, prog.defs, 1), fuel, prog.main, [self], World(map[], 0)), prog, globals)
  {
    hide Supported;
    hide Accepted;
    hide Translated;
    hide EvalScript;
    hide M.Run;
    hide Means;
    var compiled := Compile(prog, globals, fl);
    if compiled.None? { return None; }
    var img := compiled.value;
    var vm := new Interpreter.VM(img, self, globalCount);
    assert vm.State() == Start(img, self, globalCount);
    ghost var s := vm.State();
    var flow := vm.Run(limit);
    if flow.Halt? {
      forall fuel: nat | fuel > limit
        ensures Means(flow.status, EvalScript(Context(fl, prog.defs, 1), fuel, prog.main, [self], World(map[], 0)), prog, globals)
      {
        RunMeans(prog, img, globals, globalCount, self, limit, fuel);
      }
    }
    return Some(flow);
  }

  /** And it comes to an end when evaluation does: after some number of instructions. */
  lemma RunEnds(prog: Program, img: M.Image, globals: map<string, nat>, globalCount: nat, self: Value, fuel: nat) returns (n: nat)
    requires Supported(prog, globals) && Accepted(prog, globals) && Translated(prog, img, globals) && Numbered(globals, globalCount)
    requires !EvalScript(Context(img.fl, prog.defs, 1), fuel, prog.main, [self], World(map[], 0)).Unfinished?
    ensures !M.Run(img, Start(img, self, globalCount), n).Running?
  {
    hide Supported;
    hide Accepted;
    hide EvalScript;
    hide M.Run;
    var s, big := Start(img, self, globalCount), Enlarged(prog, img);
    var t := Start(big, self, globalCount);
    assert GlobalsAgree(globals, map[], s.globals);
    EnlargedIsCompiled(prog, img, globals);
    hide Compiled;
    hide CompiledScript;
    assert Booted(prog, big, globals, self, t);
    n := ScriptCorrect(prog, big, globals, self, t, fuel);
    Capacity.RunAlike(img, big, s, t, n);
  }
}
