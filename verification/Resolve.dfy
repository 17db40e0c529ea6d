/** Name resolution across nested functions: every use of a name reaches the variable of the
    innermost visible declaration. */
module Resolve {
  import opened Bytecode
  import opened Syntax

  /** Declarations, uses, assignments, blocks, loops over blocks, function literals, named
      functions and calls, in program order. */
  datatype Code =
    | End
    | Declare(name: string, rest: Code)
    | Use(name: string, rest: Code)
    | Assign(name: string, rest: Code)
    | Scope(body: Code, rest: Code)
    | Repeat(body: Code, rest: Code)
    | Fn(params: seq<string>, body: Code, rest: Code)
    | Define(name: string, params: seq<string>, body: Code, rest: Code)
    | Call(argc: nat, rest: Code)

  // ----- lexical scoping -----

  /** The variable that a name denotes when `names` are visible, innermost last; a global
      is None. */
  function Denoted(names: seq<string>, cells: seq<nat>, name: string): (cell: Option<nat>)
    requires |names| == |cells|
    ensures cell.Some? ==> cell.value in cells
  {
    var i := LastIndex(names, name);
    if i >= 0 then Some(cells[i]) else None
  }

  // ----- resolution -----

  /** What one function's compiler knows: its visible locals and its captures so far. The
      compilers of nested functions form a chain, outermost first. */
  datatype Level = Level(locals: seq<string>, upvalues: seq<Capture>)

  datatype Access = Local(slot: nat) | Upvalue(index: nat) | Global(name: string)

  /** Position of an equal capture, or -1. */
  function Position(upvalues: seq<Capture>, c: Capture): (i: int)
    ensures -1 <= i < |upvalues|
    ensures i >= 0 ==> upvalues[i] == c
    ensures i < 0 ==> c !in upvalues
    ensures forall j :: 0 <= j < i ==> upvalues[j] != c
  {
    if upvalues == [] then -1
    else if upvalues[0] == c then 0
    else var r := Position(upvalues[1..], c); if r < 0 then -1 else r + 1
  }

  function WithCapture(upvalues: seq<Capture>, c: Capture): (r: (seq<Capture>, nat))
    ensures r.1 < |r.0| && r.0[r.1] == c && upvalues <= r.0
  {
    var i := Position(upvalues, c);
    if i >= 0 then (upvalues, i) else (upvalues + [c], |upvalues|)
  }

  /** Looks for a variable of an enclosing function and adds the captures on the way. */
  function UpvalueFor(chain: seq<Level>, name: string): (r: (Option<nat>, seq<Level>))
    requires chain != []
    ensures |r.1| == |chain|
    decreases |chain|
  {
    var n := |chain| - 1;
    if n == 0 then (None, chain) else
    var i := LastIndex(chain[n - 1].locals, name);
    if i >= 0 then
      var (ups, k) := WithCapture(chain[n].upvalues, Capture(true, i));
      (Some(k), chain[n := chain[n].(upvalues := ups)])
    else
      var (outer, above) := UpvalueFor(chain[..n], name);
      match outer
      case None => (None, above + [chain[n]])
      case Some(o) =>
        var (ups, k) := WithCapture(chain[n].upvalues, Capture(false, o));
        (Some(k), above + [chain[n].(upvalues := ups)])
  }

  function ResolveName(chain: seq<Level>, name: string): (r: (Access, seq<Level>))
    requires chain != []
    ensures |r.1| == |chain|
  {
    var i := LastIndex(chain[|chain| - 1].locals, name);
    if i >= 0 then (Local(i), chain)
    else
      var (k, after) := UpvalueFor(chain, name);
      (if k.Some? then Upvalue(k.value) else Global(name), after)
  }

  // ----- compiled code -----

  /** What becomes of a new closure: its slot is dropped, becomes a local, or is moved to a
      global. */
  datatype Naming = Unnamed | AsLocal | AsGlobal(name: string)

  datatype Compiled =
    | Stop
    | NewLocal(rest: Compiled)
    | NewGlobal(name: string, rest: Compiled)
    | Read(access: Access, rest: Compiled)
    | Write(access: Access, rest: Compiled)
    | Enclosed(body: Compiled, count: nat, rest: Compiled)
    | Looped(body: Compiled, count: nat, rest: Compiled)
    | Closure(captures: seq<Capture>, arity: nat, body: Compiled, naming: Naming, rest: Compiled)
    | Invoke(argc: nat, rest: Compiled)

  /** How many locals a block declares for itself. */
  function LocalCount(code: Code): nat {
    match code
    case End => 0
    case Declare(_, rest) => 1 + LocalCount(rest)
    case Define(_, _, _, rest) => 1 + LocalCount(rest)
    case Use(_, rest) => LocalCount(rest)
    case Assign(_, rest) => LocalCount(rest)
    case Scope(_, rest) => LocalCount(rest)
    case Repeat(_, rest) => LocalCount(rest)
    case Fn(_, _, rest) => LocalCount(rest)
    case Call(_, rest) => LocalCount(rest)
  }

  function Innermost(chain: seq<Level>): Level
    requires chain != []
  {
    chain[|chain| - 1]
  }

  function SetLocals(chain: seq<Level>, locals: seq<string>): seq<Level>
    requires chain != []
  {
    chain[|chain| - 1 := Innermost(chain).(locals := locals)]
  }

  function Inner(chain: seq<Level>, params: seq<string>): (inner: seq<Level>)
    ensures |inner| == |chain| + 1
  {
    chain + [Level([""] + params, [])]
  }

  /** `top` is the outermost scope of the script: declarations there are global. */
  function Compile(code: Code, chain: seq<Level>, top: bool): (r: (Compiled, seq<Level>))
    requires chain != []
    ensures |r.1| == |chain|
    decreases code
  {
    match code
    case End => (Stop, chain)
    case Declare(name, rest) =>
      if top then
        var (r, after) := Compile(rest, chain, top);
        (NewGlobal(name, r), after)
      else
        var (r, after) := Compile(rest, SetLocals(chain, Innermost(chain).locals + [name]), top);
        (NewLocal(r), after)
    case Use(name, rest) =>
      var (access, mid) := ResolveName(chain, name);
      var (r, after) := Compile(rest, mid, top);
      (Read(access, r), after)
    case Assign(name, rest) =>
      var (access, mid) := ResolveName(chain, name);
      var (r, after) := Compile(rest, mid, top);
      (Write(access, r), after)
    case Scope(body, rest) =>
      var (b, mid) := Compile(body, chain, false);
      var (r, after) := Compile(rest, SetLocals(mid, Innermost(chain).locals), top);
      (Enclosed(b, LocalCount(body), r), after)
    case Repeat(body, rest) =>
      var (b, mid) := Compile(body, chain, false);
      var (r, after) := Compile(rest, SetLocals(mid, Innermost(chain).locals), top);
      (Looped(b, LocalCount(body), r), after)
    case Fn(params, body, rest) =>
      var (b, mid) := Compile(body, Inner(chain, params), false);
      var (r, after) := Compile(rest, mid[..|chain|], top);
      (Closure(mid[|chain|].upvalues, |params|, b, Unnamed, r), after)
    case Define(name, params, body, rest) =>
      var named := if top then chain else SetLocals(chain, Innermost(chain).locals + [name]);
      var (b, mid) := Compile(body, Inner(named, params), false);
      var (r, after) := Compile(rest, mid[..|chain|], top);
      (Closure(mid[|chain|].upvalues, |params|, b, if top then AsGlobal(name) else AsLocal, r), after)
    case Call(argc, rest) =>
      var (r, after) := Compile(rest, chain, top);
      (Invoke(argc, r), after)
  }

  /** The cells a new closure captures from the frame that makes it. */
  function CapturedCells(captures: seq<Capture>, slots: seq<nat>, ups: seq<nat>): (cells: seq<nat>)
    ensures |cells| == |captures|
  {
    seq(|captures|, k requires 0 <= k < |captures| => CapturedCell(captures[k], slots, ups))
  }

  function CapturedCell(c: Capture, slots: seq<nat>, ups: seq<nat>): nat {
    if c.isLocal then (if c.index < |slots| then slots[c.index] else 0)
    else if c.index < |ups| then ups[c.index] else 0
  }

  function Reach(access: Access, slots: seq<nat>, ups: seq<nat>): Option<nat> {
    match access
    case Local(i) => if i < |slots| then Some(slots[i]) else None
    case Upvalue(k) => if k < |ups| then Some(ups[k]) else None
    case Global(_) => None
  }

  // ----- the two agree -----

  /** The frame of each level's function: its slots, and what its closure captured. */
  datatype Frame = Frame(slots: seq<nat>, ups: seq<nat>)

  /** Captures refer to what the enclosing level has. */
  ghost predicate Proper(chain: seq<Level>) {
    chain != [] && chain[0].upvalues == [] && forall l :: 0 < l < |chain| ==> ProperAt(chain, l)
  }

  ghost predicate ProperAt(chain: seq<Level>, l: nat)
    requires 0 < l < |chain|
  {
    forall k :: 0 <= k < |chain[l].upvalues| ==> InRange(chain[l].upvalues[k], chain[l - 1])
  }

  predicate InRange(c: Capture, outer: Level) {
    c.index < if c.isLocal then |outer.locals| else |outer.upvalues|
  }

  /** Every level has a slot for each of its locals. */
  ghost predicate Slotted(chain: seq<Level>, frames: seq<Frame>) {
    |frames| == |chain| && forall l :: 0 <= l < |chain| ==> |frames[l].slots| == |chain[l].locals|
  }

  /** Every closure holds what its captures say, taken from the frame that made it. */
  ghost predicate Linked(chain: seq<Level>, frames: seq<Frame>) {
    && |frames| == |chain|
    && (forall l :: 0 <= l < |chain| ==> |chain[l].upvalues| <= |frames[l].ups|)
    && (forall l :: 0 < l < |chain| ==> LinkedAt(chain[l].upvalues, frames, l))
  }

  ghost predicate LinkedAt(captures: seq<Capture>, frames: seq<Frame>, l: nat)
    requires 0 < l < |frames|
  {
    forall k :: 0 <= k < |captures| && k < |frames[l].ups| ==>
      frames[l].ups[k] == CapturedCell(captures[k], frames[l - 1].slots, frames[l - 1].ups)
  }

  /** Captures are only added, and at the end; other levels' locals stay. */
  ghost predicate Extends(more: seq<Level>, chain: seq<Level>) {
    && |more| == |chain|
    && (forall l :: 0 <= l < |chain| ==> chain[l].upvalues <= more[l].upvalues)
    && (forall l :: 0 <= l < |chain| - 1 ==> chain[l].locals == more[l].locals)
  }

  function AllNames(chain: seq<Level>): seq<string> {
    if chain == [] then [] else AllNames(chain[..|chain| - 1]) + chain[|chain| - 1].locals
  }

  function AllCells(frames: seq<Frame>): seq<nat> {
    if frames == [] then [] else AllCells(frames[..|frames| - 1]) + frames[|frames| - 1].slots
  }

  lemma {:induction false} SameLength(chain: seq<Level>, frames: seq<Frame>)
    requires Slotted(chain, frames)
    ensures |AllNames(chain)| == |AllCells(frames)|
    decreases |chain|
  {
    if chain != [] { SameLength(chain[..|chain| - 1], frames[..|frames| - 1]); }
  }

  lemma LastIndexAppend(a: seq<string>, b: seq<string>, name: string)
    ensures LastIndex(a + b, name) == if LastIndex(b, name) >= 0 then |a| + LastIndex(b, name) else LastIndex(a, name)
    decreases |b|
  {
    if b == [] {
      assert a + b == a;
    } else {
      var c := b[..|b| - 1];
      assert (a + b)[..|a + b| - 1] == a + c;
      LastIndexAppend(a, c, name);
    }
  }

  // ----- resolution keeps the chain proper -----

  lemma {:induction false} ResolveKeeps(chain: seq<Level>, name: string)
    requires chain != [] && Proper(chain)
    ensures
      var (k, after) := UpvalueFor(chain, name);
      && Proper(after) && Extends(after, chain) && Innermost(after).locals == Innermost(chain).locals
      && (k.Some? ==> k.value < |Innermost(after).upvalues|)
    decreases |chain|
  {
    hide Proper;
    hide Extends;
    hide InRange;
    var n := |chain| - 1;
    ExtendsSelf(chain);
    if n > 0 {
      OuterProper(chain);
      var i := LastIndex(chain[n - 1].locals, name);
      if i >= 0 {
        LocalInRange(i, chain[n - 1]);
        AddKeeps(chain, chain[..n], Capture(true, i));
        var ups := WithCapture(chain[n].upvalues, Capture(true, i)).0;
        assert chain[n := chain[n].(upvalues := ups)] == chain[..n] + [chain[n].(upvalues := ups)];
      } else {
        var (outer, above) := UpvalueFor(chain[..n], name);
        ResolveKeeps(chain[..n], name);
        if outer.None? {
          TopInRange(chain, above);
          JoinKeeps(chain, above, chain[n]);
        } else {
          UpInRange(outer.value, Innermost(above));
          AddKeeps(chain, above, Capture(false, outer.value));
        }
      }
    }
  }

  lemma LocalInRange(i: nat, outer: Level)
    requires i < |outer.locals|
    ensures InRange(Capture(true, i), outer)
  {
  }

  lemma UpInRange(k: nat, outer: Level)
    requires k < |outer.upvalues|
    ensures InRange(Capture(false, k), outer)
  {
  }

  /** What was in range stays so when the level outside is extended. */
  lemma TopInRange(chain: seq<Level>, above: seq<Level>)
    requires Proper(chain) && |chain| > 1 && |above| == |chain| - 1 && Extends(above, chain[..|chain| - 1])
    requires Innermost(above).locals == chain[|chain| - 2].locals
    ensures forall k :: 0 <= k < |Innermost(chain).upvalues| ==> InRange(Innermost(chain).upvalues[k], Innermost(above))
  {
    var n := |chain| - 1;
    assert ProperAt(chain, n);
    var d := chain[..n];
    assert d[n - 1] == chain[n - 1] && d[n - 1].upvalues <= above[n - 1].upvalues;
  }

  lemma OuterProper(chain: seq<Level>)
    requires Proper(chain) && |chain| > 1
    ensures Proper(chain[..|chain| - 1]) && Extends(chain[..|chain| - 1], chain[..|chain| - 1])
    ensures ProperAt(chain, |chain| - 1)
  {
    var c := chain[..|chain| - 1];
    forall l | 0 < l < |c| ensures ProperAt(c, l) { assert ProperAt(chain, l); }
  }

  /** A level on top of an extended chain. */
  lemma JoinKeeps(chain: seq<Level>, above: seq<Level>, top: Level)
    requires Proper(chain) && |chain| > 1 && Proper(above) && Extends(above, chain[..|chain| - 1])
    requires Innermost(above).locals == chain[|chain| - 2].locals
    requires top.locals == Innermost(chain).locals && Innermost(chain).upvalues <= top.upvalues
    requires forall k :: 0 <= k < |top.upvalues| ==> InRange(top.upvalues[k], Innermost(above))
    ensures Proper(above + [top]) && Extends(above + [top], chain)
  {
    var n := |chain| - 1;
    var after := above + [top];
    var c := chain[..n];
    assert forall l :: 0 <= l < n ==> c[l] == chain[l];
    forall l | 0 < l < |after| ensures ProperAt(after, l) {
      if l < n { assert ProperAt(above, l); }
    }
  }

  lemma AddKeeps(chain: seq<Level>, above: seq<Level>, c: Capture)
    requires Proper(chain) && |chain| > 1 && Proper(above) && Extends(above, chain[..|chain| - 1])
    requires Innermost(above).locals == chain[|chain| - 2].locals && InRange(c, Innermost(above))
    ensures
      var (ups, k) := WithCapture(Innermost(chain).upvalues, c);
      var after := above + [Innermost(chain).(upvalues := ups)];
      Proper(after) && Extends(after, chain) && k < |ups|
  {
    var (ups, k) := WithCapture(Innermost(chain).upvalues, c);
    var n := |chain| - 1;
    TopInRange(chain, above);
    forall j | 0 <= j < |ups| ensures InRange(ups[j], Innermost(above)) {
      if j < |chain[n].upvalues| { assert ups[j] == chain[n].upvalues[j]; }
    }
    JoinKeeps(chain, above, Innermost(chain).(upvalues := ups));
  }

  lemma ExtendsAgain(a: seq<Level>, b: seq<Level>, c: seq<Level>)
    requires Extends(a, b) && Extends(b, c)
    ensures Extends(a, c)
  {
  }

  lemma {:induction false} CompileKeeps(code: Code, chain: seq<Level>, top: bool)
    requires chain != [] && Proper(chain)
    ensures var (_, after) := Compile(code, chain, top); Proper(after) && Extends(after, chain)
    decreases code, 1
  {
    hide Proper;
    hide Extends;
    ExtendsSelf(chain);
    match code
    case End =>
    case Declare(name, rest) =>
      var more := if top then chain else SetLocals(chain, Innermost(chain).locals + [name]);
      LocalsKeep(chain, Innermost(chain).locals + [name]);
      CompileKeeps(rest, more, top);
      ExtendsAgain(Compile(rest, more, top).1, more, chain);
    case Use(name, rest) => NameRestKeeps(code, name, rest, chain, top);
    case Assign(name, rest) => NameRestKeeps(code, name, rest, chain, top);
    case Scope(body, rest) => BlockRestKeeps(code, body, rest, chain, top);
    case Repeat(body, rest) => BlockRestKeeps(code, body, rest, chain, top);
    case Fn(params, body, rest) => FunctionRestKeeps(code, params, body, rest, chain, chain, top);
    case Define(name, params, body, rest) =>
      var named := if top then chain else SetLocals(chain, Innermost(chain).locals + [name]);
      LocalsKeep(chain, Innermost(chain).locals + [name]);
      FunctionRestKeeps(code, params, body, rest, chain, named, top);
    case Call(_, rest) => CompileKeeps(rest, chain, top);
  }

  lemma {:induction false} NameRestKeeps(code: Code, name: string, rest: Code, chain: seq<Level>, top: bool)
    requires (code == Code.Use(name, rest) || code == Code.Assign(name, rest)) && chain != [] && Proper(chain)
    ensures var after := Compile(rest, ResolveName(chain, name).1, top).1; Proper(after) && Extends(after, chain)
    decreases code, 0
  {
    hide Proper;
    hide Extends;
    var mid := ResolveName(chain, name).1;
    NameKeeps(chain, name);
    CompileKeeps(rest, mid, top);
    ExtendsAgain(Compile(rest, mid, top).1, mid, chain);
  }

  lemma {:induction false} BlockRestKeeps(code: Code, body: Code, rest: Code, chain: seq<Level>, top: bool)
    requires (code == Scope(body, rest) || code == Repeat(body, rest)) && chain != [] && Proper(chain)
    ensures
      var mid := Compile(body, chain, false).1;
      var back := SetLocals(mid, Innermost(chain).locals);
      var after := Compile(rest, back, top).1;
      && Proper(mid) && Extends(mid, chain) && Proper(back) && Extends(back, mid) && Extends(after, back)
      && Proper(after) && Extends(after, chain)
    decreases code, 0
  {
    hide Proper;
    hide Extends;
    var mid := Compile(body, chain, false).1;
    var back := SetLocals(mid, Innermost(chain).locals);
    CompileKeeps(body, chain, false);
    LocalsKeep(mid, Innermost(chain).locals);
    ExtendsAgain(back, mid, chain);
    CompileKeeps(rest, back, top);
    ExtendsAgain(Compile(rest, back, top).1, back, chain);
  }

  lemma {:induction false} FunctionRestKeeps(code: Code, params: seq<string>, body: Code, rest: Code, chain: seq<Level>, named: seq<Level>, top: bool)
    requires body < code && rest < code && chain != [] && Proper(named) && Extends(named, chain)
    ensures var after := Compile(rest, Compile(body, Inner(named, params), false).1[..|chain|], top).1; Proper(after) && Extends(after, chain)
    decreases code, 0
  {
    var inner := Inner(named, params);
    var mid := Compile(body, inner, false).1;
    assert |named| == |chain|;
    hide Proper;
    hide Extends;
    NewLevel(named, params);
    CompileKeeps(body, inner, false);
    FunctionKeeps(named, params, mid);
    CompileKeeps(rest, mid[..|chain|], top);
    ExtendsAgain(Compile(rest, mid[..|chain|], top).1, mid[..|chain|], named);
    ExtendsAgain(Compile(rest, mid[..|chain|], top).1, named, chain);
  }

  lemma ExtendsSelf(chain: seq<Level>)
    ensures Extends(chain, chain)
  {
  }

  lemma NameKeeps(chain: seq<Level>, name: string)
    requires chain != [] && Proper(chain)
    ensures var mid := ResolveName(chain, name).1; Proper(mid) && Extends(mid, chain) && Innermost(mid).locals == Innermost(chain).locals
  {
    ResolveKeeps(chain, name);
  }

  /** Nothing refers to the locals of the innermost level. */
  lemma LocalsKeep(chain: seq<Level>, locals: seq<string>)
    requires Proper(chain)
    ensures Proper(SetLocals(chain, locals)) && Extends(SetLocals(chain, locals), chain) && Extends(chain, SetLocals(chain, locals))
  {
    var more := SetLocals(chain, locals);
    forall l | 0 < l < |more| ensures ProperAt(more, l) { assert ProperAt(chain, l); }
  }

  lemma NewLevel(chain: seq<Level>, params: seq<string>)
    requires Proper(chain)
    ensures Proper(Inner(chain, params))
  {
    var inner := Inner(chain, params);
    forall l | 0 < l < |inner| ensures ProperAt(inner, l) {
      if l < |chain| { assert ProperAt(chain, l); }
    }
  }

  lemma FunctionKeeps(chain: seq<Level>, params: seq<string>, mid: seq<Level>)
    requires chain != [] && Proper(mid) && Extends(mid, Inner(chain, params))
    ensures Proper(mid[..|chain|]) && Extends(mid[..|chain|], chain)
    ensures Innermost(mid[..|chain|]).locals == Innermost(chain).locals
  {
    var inner := Inner(chain, params);
    var back := mid[..|chain|];
    assert forall l :: 0 <= l < |chain| ==> inner[l] == chain[l];
    forall l | 0 < l < |back| ensures ProperAt(back, l) { assert ProperAt(mid, l); }
  }

  // ----- uses reach what they denote -----

  lemma LinkedLess(more: seq<Level>, chain: seq<Level>, frames: seq<Frame>)
    requires Linked(more, frames) && Extends(more, chain)
    ensures Linked(chain, frames)
  {
    forall l | 0 < l < |chain| ensures LinkedAt(chain[l].upvalues, frames, l) {
      assert LinkedAt(more[l].upvalues, frames, l);
    }
  }

  /** The capture, if there is one, leads to what the name denotes in the functions outside. */
  ghost predicate OuterReached(chain: seq<Level>, k: Option<nat>, frames: seq<Frame>, name: string) {
    && chain != [] && |frames| == |chain|
    && var n := |chain| - 1;
    && |AllNames(chain[..n])| == |AllCells(frames[..n])|
    && (k.Some? ==> k.value < |frames[n].ups|)
    && Denoted(AllNames(chain[..n]), AllCells(frames[..n]), name) == if k.Some? then Some(frames[n].ups[k.value]) else None
  }

  lemma {:induction false} UpvalueReaches(chain: seq<Level>, frames: seq<Frame>, name: string)
    requires chain != [] && |frames| == |chain| && Proper(chain) && Slotted(chain, frames) && Linked(UpvalueFor(chain, name).1, frames)
    ensures OuterReached(chain, UpvalueFor(chain, name).0, frames, name)
    decreases |chain|
  {
    hide Proper;
    hide Linked;
    hide Slotted;
    hide AllNames;
    hide AllCells;
    hide Denoted;
    hide LastIndex;
    hide Extends;
    hide WithCapture;
    hide OuterReached;
    var n := |chain| - 1;
    var after := UpvalueFor(chain, name).1;
    OuterSlotted(chain, frames, n);
    if n == 0 {
      NothingVisible(chain, frames, name);
    } else if LastIndex(chain[n - 1].locals, name) >= 0 {
      LocalReached(chain, frames, name);
    } else {
      OuterUpvalue(chain, name);
      OuterLinked(after, frames, n);
      OuterProper(chain);
      UpvalueReaches(chain[..n], frames[..n], name);
      CaptureReached(chain, frames, name);
    }
  }

  lemma LocalReached(chain: seq<Level>, frames: seq<Frame>, name: string)
    requires |chain| > 1 && Proper(chain) && Slotted(chain, frames) && Linked(UpvalueFor(chain, name).1, frames)
    requires LastIndex(chain[|chain| - 2].locals, name) >= 0
    ensures OuterReached(chain, UpvalueFor(chain, name).0, frames, name)
  {
    hide Proper;
    hide Linked;
    hide Slotted;
    hide AllNames;
    hide AllCells;
    hide Denoted;
    hide LastIndex;
    hide CapturedCell;
    hide WithCapture;
    var n := |chain| - 1;
    var (k, after) := UpvalueFor(chain, name);
    SameLevels(chain, frames);
    Visible(chain, frames, n, name);
    ResolveKeeps(chain, name);
    LinkedUp(after, frames, k.value);
    var i := LastIndex(chain[n - 1].locals, name);
    assert Innermost(after).upvalues[k.value] == Capture(true, i);
    SlotCell(i, frames[n - 1]);
  }

  lemma SameLevels(chain: seq<Level>, frames: seq<Frame>)
    requires Slotted(chain, frames)
    ensures |chain| == |frames|
  {
  }

  /** What the enclosing function reaches, a capture of its capture reaches. */
  lemma CaptureReached(chain: seq<Level>, frames: seq<Frame>, name: string)
    requires |chain| > 1 && Proper(chain) && Slotted(chain, frames) && Linked(UpvalueFor(chain, name).1, frames)
    requires LastIndex(chain[|chain| - 2].locals, name) < 0
    requires var n := |chain| - 1; n <= |frames| && OuterReached(chain[..n], UpvalueFor(chain[..n], name).0, frames[..n], name)
    ensures OuterReached(chain, UpvalueFor(chain, name).0, frames, name)
  {
    hide Proper;
    hide Linked;
    hide Slotted;
    hide AllNames;
    hide AllCells;
    hide Denoted;
    hide LastIndex;
    hide CapturedCell;
    hide WithCapture;
    hide UpvalueFor;
    var n := |chain| - 1;
    var (k, after) := UpvalueFor(chain, name);
    SameLevels(chain, frames);
    Visible(chain, frames, n, name);
    assert chain[..n][..n - 1] == chain[..n - 1] && frames[..n][..n - 1] == frames[..n - 1];
    OuterUpvalue(chain, name);
    if k.Some? {
      LinkedUp(after, frames, k.value);
      UpCell(UpvalueFor(chain[..n], name).0.value, frames[n - 1]);
    }
  }

  lemma NothingVisible(chain: seq<Level>, frames: seq<Frame>, name: string)
    requires |chain| == 1 == |frames|
    ensures OuterReached(chain, UpvalueFor(chain, name).0, frames, name)
  {
  }

  /** A variable of a function further out is captured from the enclosing closure. */
  lemma OuterUpvalue(chain: seq<Level>, name: string)
    requires |chain| > 1 && LastIndex(chain[|chain| - 2].locals, name) < 0
    ensures
      var n := |chain| - 1;
      var (k, after) := UpvalueFor(chain, name);
      var (outer, above) := UpvalueFor(chain[..n], name);
      && above == after[..n] && (k.Some? <==> outer.Some?)
      && (k.Some? ==> k.value < |Innermost(after).upvalues|)
      && (k.Some? ==> Innermost(after).upvalues[k.value] == Capture(false, outer.value))
  {
  }

  lemma SlotCell(i: nat, f: Frame)
    requires i < |f.slots|
    ensures CapturedCell(Capture(true, i), f.slots, f.ups) == f.slots[i]
  {
  }

  lemma UpCell(k: nat, f: Frame)
    requires k < |f.ups|
    ensures CapturedCell(Capture(false, k), f.slots, f.ups) == f.ups[k]
  {
  }

  /** What the innermost of `n` levels sees, from its own locals and the levels outside. */
  lemma Visible(chain: seq<Level>, frames: seq<Frame>, n: nat, name: string)
    requires 0 < n <= |chain| && Slotted(chain, frames)
    ensures |frames[n - 1].slots| == |chain[n - 1].locals|
    ensures |AllNames(chain[..n - 1])| == |AllCells(frames[..n - 1])| && |AllNames(chain[..n])| == |AllCells(frames[..n])|
    ensures
      var i := LastIndex(chain[n - 1].locals, name);
      Denoted(AllNames(chain[..n]), AllCells(frames[..n]), name) ==
        if i >= 0 then Some(frames[n - 1].slots[i]) else Denoted(AllNames(chain[..n - 1]), AllCells(frames[..n - 1]), name)
  {
    OuterSlotted(chain, frames, n);
    OuterSlotted(chain, frames, n - 1);
    SameLength(chain[..n], frames[..n]);
    SameLength(chain[..n - 1], frames[..n - 1]);
    assert chain[..n][..n - 1] == chain[..n - 1] && frames[..n][..n - 1] == frames[..n - 1];
    assert AllNames(chain[..n]) == AllNames(chain[..n - 1]) + chain[n - 1].locals;
    assert AllCells(frames[..n]) == AllCells(frames[..n - 1]) + frames[n - 1].slots;
    hide AllNames;
    hide AllCells;
    hide LastIndex;
    LastIndexAppend(AllNames(chain[..n - 1]), chain[n - 1].locals, name);
  }

  lemma OuterSlotted(chain: seq<Level>, frames: seq<Frame>, n: nat)
    requires n <= |chain| && Slotted(chain, frames)
    ensures Slotted(chain[..n], frames[..n])
  {
  }

  lemma LinkedUp(chain: seq<Level>, frames: seq<Frame>, k: nat)
    requires |chain| > 1 && Linked(chain, frames) && k < |Innermost(chain).upvalues|
    ensures
      var n := |chain| - 1;
      k < |frames[n].ups| && frames[n].ups[k] == CapturedCell(Innermost(chain).upvalues[k], frames[n - 1].slots, frames[n - 1].ups)
  {
    assert LinkedAt(chain[|chain| - 1].upvalues, frames, |chain| - 1);
  }

  lemma OuterLinked(chain: seq<Level>, frames: seq<Frame>, n: nat)
    requires Linked(chain, frames) && n <= |chain|
    ensures Linked(chain[..n], frames[..n])
  {
    forall l | 0 < l < n ensures LinkedAt(chain[..n][l].upvalues, frames[..n], l) {
      assert LinkedAt(chain[l].upvalues, frames, l);
    }
  }

  lemma NameReaches(chain: seq<Level>, frames: seq<Frame>, name: string)
    requires chain != [] && |frames| == |chain| && Proper(chain) && Slotted(chain, frames) && Linked(ResolveName(chain, name).1, frames)
    ensures |AllNames(chain)| == |AllCells(frames)|
    ensures
      var f := frames[|frames| - 1];
      Reach(ResolveName(chain, name).0, f.slots, f.ups) == Denoted(AllNames(chain), AllCells(frames), name)
  {
    hide Proper;
    hide Linked;
    var n := |chain|;
    Visible(chain, frames, n, name);
    hide Slotted;
    assert chain[..n] == chain && frames[..n] == frames;
    if LastIndex(chain[n - 1].locals, name) < 0 {
      UpvalueReaches(chain, frames, name);
    }
  }

  /** Only the locals of a chain matter to which names are visible. */
  lemma {:induction false} SameNames(a: seq<Level>, b: seq<Level>, frames: seq<Frame>)
    requires |a| == |b| && forall l :: 0 <= l < |a| ==> a[l].locals == b[l].locals
    ensures AllNames(a) == AllNames(b)
    ensures Slotted(a, frames) ==> Slotted(b, frames)
    decreases |a|
  {
    if a != [] { SameNames(a[..|a| - 1], b[..|b| - 1], []); }
  }

  lemma NewLink(frames: seq<Frame>, mid: seq<Level>, slots: seq<nat>)
    requires frames != [] && |mid| == |frames| + 1 && Linked(mid[..|frames|], frames)
    ensures
      var f := frames[|frames| - 1];
      Linked(mid, frames + [Frame(slots, CapturedCells(mid[|frames|].upvalues, f.slots, f.ups))])
  {
    hide CapturedCell;
    var n := |frames|;
    var callee := Frame(slots, CapturedCells(mid[n].upvalues, frames[n - 1].slots, frames[n - 1].ups));
    assert forall l :: 0 <= l < n ==> mid[l] == mid[..n][l];
    forall l | 0 < l < |mid| ensures LinkedAt(mid[l].upvalues, frames + [callee], l) {
      if l < n { assert LinkedAt(mid[..n][l].upvalues, frames, l); }
    }
  }

  // ----- no variable is captured twice -----

  ghost predicate Distinct(upvalues: seq<Capture>) {
    forall i, j :: 0 <= i < j < |upvalues| ==> upvalues[i] != upvalues[j]
  }

  ghost predicate AllDistinct(chain: seq<Level>) {
    forall l :: 0 <= l < |chain| ==> Distinct(chain[l].upvalues)
  }

  lemma {:induction false} ResolveDistinct(chain: seq<Level>, name: string)
    requires chain != [] && AllDistinct(chain)
    ensures AllDistinct(UpvalueFor(chain, name).1)
    decreases |chain|
  {
    hide Distinct;
    var n := |chain| - 1;
    if n > 0 {
      var i := LastIndex(chain[n - 1].locals, name);
      if i >= 0 {
        AddDistinct(chain[n].upvalues, Capture(true, i));
      } else {
        var (outer, above) := UpvalueFor(chain[..n], name);
        ResolveDistinct(chain[..n], name);
        if outer.Some? { AddDistinct(chain[n].upvalues, Capture(false, outer.value)); }
      }
    }
  }

  lemma AddDistinct(upvalues: seq<Capture>, c: Capture)
    requires Distinct(upvalues)
    ensures Distinct(WithCapture(upvalues, c).0)
  {
  }

  /** A function captures each variable at most once, however often its body uses it. */
  lemma {:induction false} CompileDistinct(code: Code, chain: seq<Level>, top: bool)
    requires chain != [] && AllDistinct(chain)
    ensures AllDistinct(Compile(code, chain, top).1)
    decreases code
  {
    match code
    case End =>
    case Declare(name, rest) =>
      CompileDistinct(rest, if top then chain else SetLocals(chain, Innermost(chain).locals + [name]), top);
    case Use(name, rest) =>
      ResolveDistinct(chain, name);
      CompileDistinct(rest, ResolveName(chain, name).1, top);
    case Assign(name, rest) =>
      ResolveDistinct(chain, name);
      CompileDistinct(rest, ResolveName(chain, name).1, top);
    case Scope(body, rest) =>
      CompileDistinct(body, chain, false);
      CompileDistinct(rest, SetLocals(Compile(body, chain, false).1, Innermost(chain).locals), top);
    case Repeat(body, rest) =>
      CompileDistinct(body, chain, false);
      CompileDistinct(rest, SetLocals(Compile(body, chain, false).1, Innermost(chain).locals), top);
    case Fn(params, body, rest) =>
      CompileDistinct(body, Inner(chain, params), false);
      CompileDistinct(rest, Compile(body, Inner(chain, params), false).1[..|chain|], top);
    case Define(name, params, body, rest) =>
      var named := if top then chain else SetLocals(chain, Innermost(chain).locals + [name]);
      CompileDistinct(body, Inner(named, params), false);
      CompileDistinct(rest, Compile(body, Inner(named, params), false).1[..|chain|], top);
    case Call(_, rest) => CompileDistinct(rest, chain, top);
  }

  lemma UpvalueStep(before: seq<Level>, top: Level, name: string)
    requires before != []
    ensures
      var i := LastIndex(Innermost(before).locals, name);
      var (outer, above) := UpvalueFor(before, name);
      var found := if i >= 0 then Some(Capture(true, i)) else if outer.Some? then Some(Capture(false, outer.value)) else None;
      var rest := if i >= 0 then before else above;
      UpvalueFor(before + [top], name) ==
        if found.None? then (None, rest + [top])
        else
          var (ups, k) := WithCapture(top.upvalues, found.value);
          (Some(k), rest + [top.(upvalues := ups)])
  {
    assert (before + [top])[..|before|] == before;
    assert forall t: Level :: (before + [top])[|before| := t] == before + [t];
  }

  // ----- the compilers themselves -----

  const MAX_UPVALUES := 0x100_0000

  datatype Answer = Found(index: nat) | NotFound | TooMany

  /** No function captures too many variables. */
  ghost predicate WithinLimit(chain: seq<Level>) {
    forall l :: 0 <= l < |chain| ==> |chain[l].upvalues| <= 0x100_0000
  }

  lemma LimitSplit(above: seq<Level>, top: Level)
    ensures WithinLimit(above + [top]) <==> WithinLimit(above) && |top.upvalues| <= MAX_UPVALUES
  {
    assert (above + [top])[|above|] == top;
    assert forall l :: 0 <= l < |above| ==> (above + [top])[l] == above[l];
  }

  /** The state of one function's compilation. `chain` holds the compilers of the
      functions around it, outermost first, and itself. */
  class Compiler {
    const enclosing: Compiler?
    var locals: seq<string>
    var upvalues: seq<Capture>
    ghost const chain: seq<Compiler>

    constructor (enclosing: Compiler?)
      requires enclosing != null ==> enclosing.Nested()
      ensures Nested() && this.enclosing == enclosing && locals == [""] && upvalues == []
      ensures chain == (if enclosing == null then [] else enclosing.chain) + [this]
    {
      this.enclosing, locals, upvalues := enclosing, [""], [];
      chain := (if enclosing == null then [] else enclosing.chain) + [this];
    }

    ghost predicate Nested()
      decreases |chain|
    {
      && chain != [] && chain[|chain| - 1] == this && this !in chain[..|chain| - 1]
      && if |chain| == 1 then enclosing == null
         else enclosing != null && enclosing.chain == chain[..|chain| - 1] && enclosing.Nested()
    }

    ghost function Levels(): (levels: seq<Level>)
      reads chain
      ensures |levels| == |chain|
    {
      seq(|chain|, l requires 0 <= l < |chain| reads chain => Level(chain[l].locals, chain[l].upvalues))
    }

    /** The innermost local of that name, or -1. */
    method ResolveLocal(name: string) returns (i: int)
      ensures i == LastIndex(locals, name)
    {
      i := |locals| - 1;
      while i >= 0
        invariant -1 <= i < |locals|
        invariant forall j :: i < j < |locals| ==> locals[j] != name
      {
        if locals[i] == name {
          break;
        }
        i := i - 1;
      }
    }

    /** The index of a capture, which is added unless it is there; none if there are too
        many already. */
    method AddUpvalue(c: Capture) returns (index: Option<nat>)
      requires |upvalues| <= MAX_UPVALUES
      modifies `upvalues
      ensures
        var (ups, k) := WithCapture(old(upvalues), c);
        if |ups| <= MAX_UPVALUES then index == Some(k) && upvalues == ups else index == None && upvalues == old(upvalues)
    {
      for i := 0 to |upvalues|
        invariant forall j :: 0 <= j < i ==> upvalues[j] != c
        invariant upvalues == old(upvalues)
      {
        if upvalues[i] == c {
          return Some(i);
        }
      }
      if |upvalues| == MAX_UPVALUES {
        return None;
      }
      upvalues := upvalues + [c];
      return Some(|upvalues| - 1);
    }

    lemma Outermost(name: string)
      requires Nested() && enclosing == null
      ensures UpvalueFor(Levels(), name) == (Option.None, Levels())
    {
    }

    /** Finds a variable of an enclosing function. Refused if and only if some function on
        the way would capture too many variables. */
    method ResolveUpvalue(name: string) returns (r: Answer)
      requires Nested() && WithinLimit(Levels())
      modifies chain
      ensures
        var (k, after) := UpvalueFor(old(Levels()), name);
        if WithinLimit(after) then r == (if k.Some? then Found(k.value) else NotFound) && Levels() == after else r == TooMany
      decreases |chain|
    {
      hide Levels;
      hide WithinLimit;
      hide UpvalueFor;
      hide WithCapture;
      hide LastIndex;
      if enclosing == null {
        Outermost(name);
        return NotFound;
      }
      ghost var before, was := enclosing.Levels(), Level(locals, upvalues);
      LevelsSplit();
      LimitSplit(before, was);
      UpvalueStep(before, was, name);
      var local := enclosing.ResolveLocal(name);
      if local != -1 {
        var index := AddUpvalue(Capture(true, local));
        LevelsSplit();
        ghost var top := was.(upvalues := WithCapture(was.upvalues, Capture(true, local)).0);
        LimitSplit(before, top);
        return if index.Some? then Found(index.value) else TooMany;
      }
      ghost var above := UpvalueFor(before, name).1;
      var outer := enclosing.ResolveUpvalue(name);
      match outer
      case TooMany =>
        ghost var after := UpvalueFor(before + [was], name).1;
        LimitSplit(above, after[|above|]);
        return TooMany;
      case NotFound =>
        LevelsSplit();
        LimitSplit(above, was);
        return NotFound;
      case Found(i) =>
        var index := AddUpvalue(Capture(false, i));
        LevelsSplit();
        LimitSplit(above, was.(upvalues := WithCapture(was.upvalues, Capture(false, i)).0));
        return if index.Some? then Found(index.value) else TooMany;
    }

    lemma LevelsSplit()
      requires Nested() && enclosing != null
      ensures |Levels()| == |enclosing.Levels()| + 1 && |enclosing.Levels()| > 0
      ensures Levels() == enclosing.Levels() + [Level(locals, upvalues)]
      ensures Levels()[..|Levels()| - 1] == enclosing.Levels()
      ensures Innermost(enclosing.Levels()).locals == enclosing.locals
    {
    }

    /** How the current function reaches a name. */
    method Named(name: string) returns (access: Option<Access>)
      requires Nested() && WithinLimit(Levels())
      modifies chain
      ensures
        var (a, after) := ResolveName(old(Levels()), name);
        if WithinLimit(after) then access == Some(a) && Levels() == after else access == None
    {
      var local := ResolveLocal(name);
      if local != -1 {
        return Some(Local(local));
      }
      var r := ResolveUpvalue(name);
      return match r
        case TooMany => None
        case NotFound => Some(Global(name))
        case Found(index) => Some(Upvalue(index));
    }
  }
}
