/** Closures at run time: the code that name resolution gives, run on the machine's variables
    with any calls at any later time, reads what lexical scoping says. */
module Closures {
  import opened Bytecode
  import Syntax
  import opened Resolve
  import C = Cells
  import Upvalues

  /** What the program leaves open at each step: the value that is stored, whether a loop
      goes on, and which closure is called with which arguments. */
  datatype Choice = Choice(v: C.Value, again: bool, closure: nat, args: seq<C.Value>)

  // ----- lexical scoping -----

  /** A function with the variables around it. */
  datatype Body = Body(names: seq<string>, cells: seq<nat>, params: seq<string>, code: Code)

  /** `Cut` ends a block: only the first `n` visible names stay. */
  datatype Task = Do(code: Code, top: bool) | Cut(n: nat)

  /** A function being run: its visible names, innermost last, their variables, and what is
      left to do. */
  datatype Activation = Activation(names: seq<string>, cells: seq<nat>, todo: seq<Task>)
  {
    function Find(name: string): Option<nat> {
      var i := Syntax.LastIndex(names, name);
      if 0 <= i < |cells| then Some(cells[i]) else None
    }

    function Next(tasks: seq<Task>): Activation {
      this.(todo := tasks + if todo == [] then [] else todo[1..])
    }
  }

  /** Every variable ever declared has a cell of its own. */
  datatype World = World(
    values: seq<C.Value>, closures: seq<Body>, active: seq<Activation>, globals: map<string, C.Value>)
  {
    function With(a: Activation): World
      requires active != []
    {
      this.(active := active[|active| - 1 := a])
    }

    function New(name: string, v: C.Value, tasks: seq<Task>): World
      requires active != []
    {
      var a := active[|active| - 1].Next(tasks);
      With(Activation(a.names + [name], a.cells + [|values|], a.todo)).(values := values + [v])
    }

    function Read(cell: nat): C.Value { if cell < |values| then values[cell] else C.Data(0) }

    function Write(cell: nat, v: C.Value): World {
      if cell < |values| then this.(values := values[cell := v]) else this
    }
  }

  function Fresh(next: nat, n: nat): (cells: seq<nat>)
    ensures |cells| == n
  {
    seq(n, i requires 0 <= i < n => next + i)
  }

  /** One step, and the values that it reads. A global that is not defined and a call that
      cannot be made are errors: nothing happens any more. */
  function SourceStep(w: World, ch: Choice): (World, seq<C.Value>) {
    if w.active == [] then (w, []) else
    var a := w.active[|w.active| - 1];
    if a.todo == [] then
      (if |w.active| == 1 then w else w.(active := w.active[..|w.active| - 1]), [])
    else
      match a.todo[0]
      case Cut(n) =>
        var b := a.Next([]);
        (if n <= |a.names| && n <= |a.cells| then w.With(Activation(a.names[..n], a.cells[..n], b.todo)) else w.With(b), [])
      case Do(code, top) => SourceCode(w, a, code, top, ch)
  }

  function SourceCode(w: World, a: Activation, code: Code, top: bool, ch: Choice): (World, seq<C.Value>)
    requires w.active != []
  {
    match code
    case End => (w.With(a.Next([])), [])
    case Declare(name, rest) =>
      (if top then w.With(a.Next([Do(rest, top)])).(globals := w.globals[name := ch.v])
       else w.New(name, ch.v, [Do(rest, top)]), [])
    case Use(name, rest) =>
      var v := match a.Find(name)
               case Some(cell) => Some(w.Read(cell))
               case None => if name in w.globals then Some(w.globals[name]) else None;
      if v.Some? then (w.With(a.Next([Do(rest, top)])), [v.value]) else (w, [])
    case Assign(name, rest) =>
      (match a.Find(name)
       case Some(cell) => w.With(a.Next([Do(rest, top)])).Write(cell, ch.v)
       case None =>
         if name in w.globals then w.With(a.Next([Do(rest, top)])).(globals := w.globals[name := ch.v]) else w, [])
    case Scope(body, rest) => (w.With(a.Next([Do(body, false), Cut(|a.names|), Do(rest, top)])), [])
    case Repeat(body, rest) =>
      (w.With(a.Next(if ch.again then [Do(body, false), Cut(|a.names|), Do(code, top)] else [Do(rest, top)])), [])
    case Fn(params, body, rest) =>
      (w.With(a.Next([Do(rest, top)])).(closures := w.closures + [Body(a.names, a.cells, params, body)]), [])
    case Define(name, params, body, rest) =>
      var f := C.Function(|w.closures|);
      (if top then
         w.With(a.Next([Do(rest, top)])).(closures := w.closures + [Body(a.names, a.cells, params, body)],
                                          globals := w.globals[name := f])
       else
         w.New(name, f, [Do(rest, top)]).(
           closures := w.closures + [Body(a.names + [name], a.cells + [|w.values|], params, body)]), [])
    case Call(argc, rest) =>
      if !(0 < ch.closure < |w.closures| && |w.closures[ch.closure].params| == argc == |ch.args|) then (w, [])
      else
        var b := w.closures[ch.closure];
        var callee := Activation(b.names + ([""] + b.params), b.cells + Fresh(|w.values|, 1 + argc), [Do(b.code, false)]);
        (w.With(a.Next([Do(rest, top)])).(
           active := w.active[|w.active| - 1 := a.Next([Do(rest, top)])] + [callee],
           values := w.values + ([C.Function(ch.closure)] + ch.args)), [])
  }

  function SourceRun(w: World, choices: seq<Choice>): (World, seq<C.Value>)
    decreases |choices|
  {
    if choices == [] then (w, [])
    else
      var (next, read) := SourceStep(w, choices[0]);
      var (end, more) := SourceRun(next, choices[1..]);
      (end, read + more)
  }

  // ----- the machine -----

  datatype Proto = Proto(arity: nat, maxSlots: nat, code: Compiled)

  datatype Job = Run(code: Compiled) | Leave(count: nat)

  /** The machine's variables, the compiled function of each closure, and what is left to do
      in each frame. */
  datatype Machine = Machine(
    store: C.Store, protos: seq<Proto>, todo: seq<seq<Job>>, globals: map<string, C.Value>)

  /** How many slots running the code needs at most, from `h` on. */
  function Tall(c: Compiled, h: nat): (t: nat)
    ensures t >= h
    decreases c
  {
    match c
    case Stop => h
    case NewLocal(rest) => Tall(rest, h + 1)
    case NewGlobal(_, rest) => Max(h + 1, Tall(rest, h))
    case Read(_, rest) => Max(h + 1, Tall(rest, h))
    case Write(_, rest) => Max(h + 1, Tall(rest, h))
    case Enclosed(body, count, rest) => Max(Max(h + count + 1, Tall(body, h)), Tall(rest, h))
    case Looped(body, count, rest) => Max(Max(h + count + 1, Tall(body, h)), Tall(rest, h))
    case Closure(_, _, _, naming, rest) => Max(h + 1, Tall(rest, if naming.AsLocal? then h + 1 else h))
    case Invoke(argc, rest) => Max(h + 1 + argc, Tall(rest, h))
  }

  function Grown(c: Compiled): nat {
    match c
    case Stop => 0
    case NewLocal(rest) => 1 + Grown(rest)
    case NewGlobal(_, rest) => Grown(rest)
    case Read(_, rest) => Grown(rest)
    case Write(_, rest) => Grown(rest)
    case Enclosed(_, _, rest) => Grown(rest)
    case Looped(_, _, rest) => Grown(rest)
    case Closure(_, _, _, naming, rest) => (if naming.AsLocal? then 1 else 0) + Grown(rest)
    case Invoke(_, rest) => Grown(rest)
  }

  function Room(jobs: seq<Job>, h: nat): (t: nat)
    ensures t > h
    decreases |jobs|
  {
    if jobs == [] then h + 1
    else
      match jobs[0]
      case Run(c) => Max(Tall(c, h) + 1, Room(jobs[1..], h + Grown(c)))
      case Leave(count) => Max(h + 1, Room(jobs[1..], if count <= h then h - count else 0))
  }

  function ProtoOf(arity: nat, code: Compiled): Proto {
    Proto(arity, Room([Run(code)], 1 + arity), code)
  }

  function Pushes(args: seq<C.Value>): (ops: seq<C.Op>)
    ensures |ops| == |args|
  {
    seq(|args|, i requires 0 <= i < |args| => C.Op.Push(args[i]))
  }

  /** A value that is pushed and dropped again. */
  function Passing(v: C.Value): seq<C.Op> { [C.Op.Push(v), C.Op.Pop] }

  /** The operations on variables that a step makes. */
  function Ops(m: Machine, ch: Choice): seq<C.Op> {
    if m.todo == [] then [] else
    var jobs := m.todo[|m.todo| - 1];
    if jobs == [] then
      if |m.todo| == 1 then [] else [C.Op.Push(ch.v), C.Op.Return, C.Op.Pop]
    else
      match jobs[0]
      case Leave(count) => if count == 0 then [] else [C.Op.Push(ch.v), C.Op.EndScope(count), C.Op.Pop]
      case Run(code) => CodeOps(m, code, ch)
  }

  function CodeOps(m: Machine, code: Compiled, ch: Choice): seq<C.Op> {
    match code
    case Stop => []
    case NewLocal(_) => [C.Op.Push(ch.v)]
    case NewGlobal(_, _) => Passing(ch.v)
    case Read(access, _) => ReadOps(m, access)
    case Write(access, _) => WriteOps(m, access, ch.v)
    case Enclosed(_, _, _) => []
    case Looped(_, _, _) => []
    case Closure(captures, _, _, naming, _) =>
      [C.Op.MakeClosure(captures)] + if naming.AsLocal? then [] else [C.Op.Pop]
    case Invoke(argc, _) =>
      if Callable(m, argc, ch) then
        Pushes([C.Function(ch.closure)] + ch.args) + [C.Op.Call(argc, m.protos[ch.closure].maxSlots)]
      else []
  }

  function ReadOps(m: Machine, access: Access): seq<C.Op> {
    match access
    case Local(i) => [C.Op.GetLocal(i), C.Op.Pop]
    case Upvalue(k) => [C.Op.GetUpvalue(k), C.Op.Pop]
    case Global(name) => if name in m.globals then Passing(m.globals[name]) else []
  }

  function WriteOps(m: Machine, access: Access, v: C.Value): seq<C.Op> {
    match access
    case Local(i) => [C.Op.Push(v), C.Op.SetLocal(i), C.Op.Pop]
    case Upvalue(k) => [C.Op.Push(v), C.Op.SetUpvalue(k), C.Op.Pop]
    case Global(name) => if name in m.globals then Passing(v) else []
  }

  predicate Callable(m: Machine, argc: nat, ch: Choice) {
    0 < ch.closure < |m.protos| && m.protos[ch.closure].arity == argc == |ch.args|
  }

  predicate Reading(m: Machine) {
    m.todo != [] && m.todo[|m.todo| - 1] != [] && m.todo[|m.todo| - 1][0].Run? && m.todo[|m.todo| - 1][0].code.Read?
  }

  /** What a read finds: the value that its first operation leaves on the stack. */
  function Found(m: Machine, ch: Choice, round: nat -> nat): seq<C.Value> {
    var ops := Ops(m, ch);
    if Reading(m) && ops != [] && m.store.frames != [] then [C.Apply(m.store, ops[0], round).Peek(0)] else []
  }

  function Play(s: C.Store, ops: seq<C.Op>, round: nat -> nat): C.Store
    decreases |ops|
  {
    if ops == [] || s.frames == [] then s else Play(C.Apply(s, ops[0], round), ops[1..], round)
  }

  /** The jobs of the current frame with the first one replaced. */
  function Instead(todo: seq<seq<Job>>, jobs: seq<Job>): seq<seq<Job>>
    requires todo != [] && todo[|todo| - 1] != []
  {
    todo[|todo| - 1 := jobs + todo[|todo| - 1][1..]]
  }

  /** What a step does besides its operations on variables. */
  function Control(m: Machine, ch: Choice): Machine {
    if m.todo == [] then m else
    var jobs := m.todo[|m.todo| - 1];
    if jobs == [] then
      if |m.todo| == 1 then m else m.(todo := m.todo[..|m.todo| - 1])
    else
      match jobs[0]
      case Leave(_) => m.(todo := Instead(m.todo, []))
      case Run(code) => CodeControl(m, code, ch)
  }

  function CodeControl(m: Machine, code: Compiled, ch: Choice): Machine
    requires m.todo != [] && m.todo[|m.todo| - 1] != []
  {
    match code
    case Stop => m.(todo := Instead(m.todo, []))
    case NewLocal(rest) => m.(todo := Instead(m.todo, [Run(rest)]))
    case NewGlobal(name, rest) => m.(todo := Instead(m.todo, [Run(rest)]), globals := m.globals[name := ch.v])
    case Read(access, rest) =>
      if access.Global? && access.name !in m.globals then m else m.(todo := Instead(m.todo, [Run(rest)]))
    case Write(access, rest) =>
      (match access
       case Global(name) =>
         if name in m.globals then m.(todo := Instead(m.todo, [Run(rest)]), globals := m.globals[name := ch.v]) else m
       case _ => m.(todo := Instead(m.todo, [Run(rest)])))
    case Enclosed(body, count, rest) => m.(todo := Instead(m.todo, [Run(body), Leave(count), Run(rest)]))
    case Looped(body, count, rest) =>
      m.(todo := Instead(m.todo, if ch.again then [Run(body), Leave(count), Run(code)] else [Run(rest)]))
    case Closure(_, arity, body, naming, rest) =>
      m.(todo := Instead(m.todo, [Run(rest)]), protos := m.protos + [ProtoOf(arity, body)],
         globals := if naming.AsGlobal? then m.globals[naming.name := C.Function(|m.protos|)] else m.globals)
    case Invoke(argc, rest) =>
      if Callable(m, argc, ch) then m.(todo := Instead(m.todo, [Run(rest)]) + [[Run(m.protos[ch.closure].code)]]) else m
  }

  function Step(m: Machine, ch: Choice, round: nat -> nat): (Machine, seq<C.Value>) {
    (Control(m, ch).(store := Play(m.store, Ops(m, ch), round)), Found(m, ch, round))
  }

  /** The run, the values it reads, and the operations on variables it makes. */
  function MachineRun(m: Machine, choices: seq<Choice>, round: nat -> nat): (Machine, seq<C.Value>, seq<C.Op>)
    decreases |choices|
  {
    if choices == [] then (m, [], [])
    else
      var (next, read) := Step(m, choices[0], round);
      var (end, more, ops) := MachineRun(next, choices[1..], round);
      (end, read + more, Ops(m, choices[0]) + ops)
  }

  // ----- what the operations of a step do -----

  lemma {:induction false} PlayIsRun(s: C.Store, ops: seq<C.Op>, round: nat -> nat)
    requires s.Sound() && C.RoundsUp(round) && C.LegalRun(s, ops, round)
    ensures Play(s, ops, round) == C.ApplyAll(s, ops, round) && Play(s, ops, round).Sound()
    decreases |ops|
  {
    hide C.Legal;
    hide C.Apply;
    if ops != [] {
      C.StaysSound(s, ops[0], round);
      PlayIsRun(C.Apply(s, ops[0], round), ops[1..], round);
    }
  }

  lemma {:induction false} RunOn(s: C.Store, a: seq<C.Op>, b: seq<C.Op>, round: nat -> nat)
    requires s.Sound() && C.RoundsUp(round) && C.LegalRun(s, a, round)
    requires Play(s, a, round).Sound() && C.LegalRun(Play(s, a, round), b, round)
    ensures C.LegalRun(s, a + b, round) && Play(s, a + b, round) == Play(Play(s, a, round), b, round)
    decreases |a|
  {
    hide C.Legal;
    hide C.Apply;
    if a == [] {
      assert a + b == b;
    } else {
      C.StaysSound(s, a[0], round);
      assert (a + b)[1..] == a[1..] + b;
      PlayIsRun(C.Apply(s, a[0], round), a[1..], round);
      RunOn(C.Apply(s, a[0], round), a[1..], b, round);
    }
  }

  lemma OneOp(s: C.Store, op: C.Op, round: nat -> nat)
    requires s.Sound() && C.RoundsUp(round) && C.Legal(s, op)
    ensures C.LegalRun(s, [op], round) && Play(s, [op], round) == C.Apply(s, op, round) && C.Apply(s, op, round).Sound()
  {
    hide C.Legal;
    hide C.Apply;
    C.StaysSound(s, op, round);
    assert [op][1..] == [];
  }

  lemma TwoOps(s: C.Store, a: C.Op, b: C.Op, round: nat -> nat)
    requires s.Sound() && C.RoundsUp(round) && C.Legal(s, a)
    requires C.Apply(s, a, round).Sound() && C.Legal(C.Apply(s, a, round), b)
    ensures C.LegalRun(s, [a, b], round) && Play(s, [a, b], round) == C.Apply(C.Apply(s, a, round), b, round)
    ensures Play(s, [a, b], round).Sound()
  {
    hide C.Legal;
    hide C.Apply;
    OneOp(s, a, round);
    OneOp(C.Apply(s, a, round), b, round);
    RunOn(s, [a], [b], round);
    assert [a] + [b] == [a, b];
  }

  lemma ThreeOps(s: C.Store, a: C.Op, b: C.Op, c: C.Op, round: nat -> nat)
    requires s.Sound() && C.RoundsUp(round) && C.Legal(s, a)
    requires C.Apply(s, a, round).Sound() && C.Legal(C.Apply(s, a, round), b)
    requires
      var t := C.Apply(C.Apply(s, a, round), b, round);
      t.Sound() && C.Legal(t, c)
    ensures C.LegalRun(s, [a, b, c], round)
    ensures Play(s, [a, b, c], round) == C.Apply(C.Apply(C.Apply(s, a, round), b, round), c, round)
    ensures Play(s, [a, b, c], round).Sound()
  {
    hide C.Legal;
    hide C.Apply;
    TwoOps(s, a, b, round);
    OneOp(C.Apply(C.Apply(s, a, round), b, round), c, round);
    RunOn(s, [a, b], [c], round);
    assert [a, b] + [c] == [a, b, c];
  }

  lemma PushDoes(s: C.Store, v: C.Value, round: nat -> nat)
    requires s.Sound() && C.RoundsUp(round) && |s.slots| < s.capacity
    ensures C.Legal(s, C.Op.Push(v)) && C.Apply(s, C.Op.Push(v), round) == s.Push(v) && s.Push(v).Sound()
  {
    C.StaysSound(s, C.Op.Push(v), round);
  }

  /** The slot that was pushed last belongs to no closure: its cell is new. */
  lemma PopDoes(s: C.Store, t: C.Store, v: C.Value, round: nat -> nat)
    requires s.Sound() && t == s.Push(v) && t.Sound()
    ensures C.Legal(t, C.Op.Pop) && C.Apply(t, C.Op.Pop, round) == s.(cells := s.cells + [v])
    ensures s.(cells := s.cells + [v]).Sound()
  {
    assert t.slots[..|s.slots|] == s.slots;
    assert !t.Captured(t.slots[|t.slots| - 1]);
    C.CutSound(t, |s.slots|);
  }

  lemma PassingDoes(s: C.Store, v: C.Value, round: nat -> nat)
    requires s.Sound() && C.RoundsUp(round) && |s.slots| < s.capacity
    ensures C.LegalRun(s, Passing(v), round) && Play(s, Passing(v), round) == s.(cells := s.cells + [v])
    ensures C.Apply(s, C.Op.Push(v), round).Peek(0) == v
    ensures s.(cells := s.cells + [v]).Sound()
  {
    hide C.Legal;
    hide C.Apply;
    PushDoes(s, v, round);
    PopDoes(s, s.Push(v), v, round);
    TwoOps(s, C.Op.Push(v), C.Op.Pop, round);
  }

  lemma ReadPushes(s: C.Store, op: C.Op, cell: nat, round: nat -> nat)
    requires s.Sound() && |s.slots| < s.capacity && cell < |s.cells|
    requires
      match op
      case GetLocal(i) => s.Top().base + i < |s.slots| && s.slots[s.Top().base + i] == cell
      case GetUpvalue(k) => k < |s.env[s.Top().closure]| && s.env[s.Top().closure][k] == cell
      case _ => false
    ensures C.Legal(s, op) && C.Apply(s, op, round) == s.Push(s.cells[cell])
  {
    assert s.Top().closure < |s.env|;
    hide C.Store.Sound;
  }

  /** Reading a variable pushes the value of its cell. */
  lemma ReadDoes(s: C.Store, op: C.Op, cell: nat, round: nat -> nat)
    requires s.Sound() && C.RoundsUp(round) && |s.slots| < s.capacity && cell < |s.cells|
    requires
      match op
      case GetLocal(i) => s.Top().base + i < |s.slots| && s.slots[s.Top().base + i] == cell
      case GetUpvalue(k) => k < |s.env[s.Top().closure]| && s.env[s.Top().closure][k] == cell
      case _ => false
    ensures C.LegalRun(s, [op, C.Op.Pop], round) && C.Apply(s, op, round).Peek(0) == s.cells[cell]
    ensures Play(s, [op, C.Op.Pop], round) == s.(cells := s.cells + [s.cells[cell]]) && s.(cells := s.cells + [s.cells[cell]]).Sound()
  {
    hide C.Legal;
    hide C.Apply;
    var v := s.cells[cell];
    ReadPushes(s, op, cell, round);
    assert s.Push(v).Peek(0) == v;
    C.StaysSound(s, op, round);
    PopDoes(s, s.Push(v), v, round);
    TwoOps(s, op, C.Op.Pop, round);
  }

  /** Writing a variable changes its cell. */
  lemma WriteDoes(s: C.Store, op: C.Op, cell: nat, v: C.Value, round: nat -> nat)
    requires s.Sound() && C.RoundsUp(round) && |s.slots| < s.capacity && cell < |s.cells|
    requires
      match op
      case SetLocal(i) => s.Top().base + i < |s.slots| && s.slots[s.Top().base + i] == cell
      case SetUpvalue(k) => k < |s.env[s.Top().closure]| && s.env[s.Top().closure][k] == cell
      case _ => false
    ensures
      var t := s.(cells := s.cells[cell := v] + [v]);
      C.LegalRun(s, [C.Op.Push(v), op, C.Op.Pop], round) && Play(s, [C.Op.Push(v), op, C.Op.Pop], round) == t && t.Sound()
  {
    PushDoes(s, v, round);
    var pushed, written := s.Push(v), s.(cells := s.cells[cell := v]);
    assert pushed.Peek(0) == v && (s.cells + [v])[cell := v] == s.cells[cell := v] + [v];
    assert C.Legal(pushed, op) && C.Apply(pushed, op, round) == written.Push(v);
    hide C.Legal;
    hide C.Apply;
    C.StaysSound(pushed, op, round);
    C.WriteSound(s, cell, v);
    PopDoes(written, written.Push(v), v, round);
    ThreeOps(s, C.Op.Push(v), op, C.Op.Pop, round);
  }

  lemma ScopeDrops(s: C.Store, n: nat, v: C.Value, round: nat -> nat)
    requires s.Sound() && s.Push(v).Sound() && s.Top().base + n < |s.slots|
    ensures C.Legal(s.Push(v), C.Op.EndScope(n))
    ensures C.Apply(s.Push(v), C.Op.EndScope(n), round) == s.(cells := s.cells + [v], slots := s.slots[..|s.slots| - n]).Push(v)
  {
    hide C.Store.Sound;
    var pushed := s.Push(v);
    assert pushed.slots[..|s.slots| - n] == s.slots[..|s.slots| - n] && pushed.Peek(0) == v;
  }

  /** The end of a block drops the block's locals from under its result. */
  lemma LeaveDoes(s: C.Store, n: nat, v: C.Value, round: nat -> nat)
    requires s.Sound() && C.RoundsUp(round) && |s.slots| < s.capacity && s.Top().base + n < |s.slots|
    ensures
      var ops := [C.Op.Push(v), C.Op.EndScope(n), C.Op.Pop];
      var t := s.(cells := s.cells + [v, v], slots := s.slots[..|s.slots| - n]);
      C.LegalRun(s, ops, round) && Play(s, ops, round) == t && t.Sound()
  {
    hide C.Legal;
    hide C.Apply;
    hide C.Store.Sound;
    PushDoes(s, v, round);
    var pushed := s.Push(v);
    var cut := s.(cells := s.cells + [v], slots := s.slots[..|s.slots| - n]);
    ScopeDrops(s, n, v, round);
    assert pushed.Cut(|s.slots| - n) == cut by { assert pushed.slots[..|s.slots| - n] == cut.slots; }
    C.CutSound(pushed, |s.slots| - n);
    C.StaysSound(pushed, C.Op.EndScope(n), round);
    PopDoes(cut, cut.Push(v), v, round);
    assert s.cells + [v] + [v] == s.cells + [v, v];
    ThreeOps(s, C.Op.Push(v), C.Op.EndScope(n), C.Op.Pop, round);
  }

  /** A return leaves one value in the callee's place, which the caller drops here. */
  lemma ReturnDoes(s: C.Store, v: C.Value, round: nat -> nat)
    requires s.Sound() && C.RoundsUp(round) && |s.slots| < s.capacity && |s.frames| > 1
    ensures
      var ops := [C.Op.Push(v), C.Op.Return, C.Op.Pop];
      var t := s.(cells := s.cells + [v, v], slots := s.slots[..s.Top().base], frames := s.frames[..|s.frames| - 1]);
      C.LegalRun(s, ops, round) && Play(s, ops, round) == t && t.Sound()
  {
    PushDoes(s, v, round);
    var pushed := s.Push(v);
    var back := s.(cells := s.cells + [v], slots := s.slots[..s.Top().base], frames := s.frames[..|s.frames| - 1]);
    assert pushed.slots[..s.Top().base] == back.slots && pushed.Peek(0) == v;
    assert C.Legal(pushed, C.Op.Return) && C.Apply(pushed, C.Op.Return, round) == back.Push(v);
    C.UnwindSound(pushed);
    assert back.Sound();
    hide C.Legal;
    hide C.Apply;
    C.StaysSound(pushed, C.Op.Return, round);
    PopDoes(back, back.Push(v), v, round);
    assert s.cells + [v] + [v] == s.cells + [v, v];
    ThreeOps(s, C.Op.Push(v), C.Op.Return, C.Op.Pop, round);
  }

  /** The two ways to say which cells a closure captures agree: by the machine's variables,
      and by the slots and captures of the function that makes it. */
  lemma CapturesAgree(s: C.Store, captures: seq<Capture>)
    requires s.Sound()
    requires forall c <- captures ::
      if c.isLocal then s.Top().base + c.index < |s.slots| else c.index < |s.env[s.Top().closure]|
    ensures s.Captures(captures) == CapturedCells(captures, s.slots[s.Top().base..], s.env[s.Top().closure])
  {
    forall j | 0 <= j < |captures|
      ensures s.Captures(captures)[j] == CapturedCells(captures, s.slots[s.Top().base..], s.env[s.Top().closure])[j]
    {
      assert captures[j] in captures;
    }
  }

  /** A new closure, and the captures it takes from the stack with itself on top. */
  function Made(s: C.Store, captures: seq<Capture>): C.Store
    requires s.frames != []
  {
    var t := s.Push(C.Function(|s.env|));
    t.(env := s.env + [t.Captures(captures)])
  }

  lemma MakeDoes(s: C.Store, captures: seq<Capture>, round: nat -> nat)
    requires s.Sound() && C.RoundsUp(round) && |s.slots| < s.capacity
    requires forall c <- captures ::
      if c.isLocal then s.Top().base + c.index <= |s.slots| else c.index < |s.env[s.Top().closure]|
    ensures
      var op := C.Op.MakeClosure(captures);
      C.Legal(s, op) && C.Apply(s, op, round) == Made(s, captures) && Made(s, captures).Sound()
  {
    assert C.Legal(s, C.Op.MakeClosure(captures)) && C.Apply(s, C.Op.MakeClosure(captures), round) == Made(s, captures);
    hide C.Legal;
    hide C.Apply;
    C.StaysSound(s, C.Op.MakeClosure(captures), round);
  }

  /** A closure that is dropped from the stack; it has not captured its own slot. */
  lemma DropMadeDoes(s: C.Store, captures: seq<Capture>, round: nat -> nat)
    requires s.Sound() && C.RoundsUp(round) && |s.slots| < s.capacity
    requires forall c <- captures ::
      if c.isLocal then s.Top().base + c.index < |s.slots| else c.index < |s.env[s.Top().closure]|
    ensures
      var ops := [C.Op.MakeClosure(captures), C.Op.Pop];
      var t := s.(cells := s.cells + [C.Function(|s.env|)], env := s.env + [s.Captures(captures)]);
      C.LegalRun(s, ops, round) && Play(s, ops, round) == t && t.Sound()
  {
    MakeDoes(s, captures, round);
    var made := Made(s, captures);
    var t := s.(cells := s.cells + [C.Function(|s.env|)], env := s.env + [s.Captures(captures)]);
    SameCaptures(s, captures);
    assert made.slots[..|s.slots|] == s.slots;
    var own := made.slots[|s.slots|];
    assert own == |s.cells|;
    NotOwn(s, captures);
    assert C.Legal(made, C.Op.Pop) && C.Apply(made, C.Op.Pop, round) == t;
    C.CutSound(made, |s.slots|);
    hide C.Legal;
    hide C.Apply;
    TwoOps(s, C.Op.MakeClosure(captures), C.Op.Pop, round);
  }

  lemma SameCaptures(s: C.Store, captures: seq<Capture>)
    requires s.Sound()
    requires forall c <- captures ::
      if c.isLocal then s.Top().base + c.index < |s.slots| else c.index < |s.env[s.Top().closure]|
    ensures s.Push(C.Function(|s.env|)).Captures(captures) == s.Captures(captures)
  {
    var t := s.Push(C.Function(|s.env|));
    forall j | 0 <= j < |captures| ensures t.Captures(captures)[j] == s.Captures(captures)[j] {
      assert captures[j] in captures;
    }
  }

  lemma NotOwn(s: C.Store, captures: seq<Capture>)
    requires s.Sound()
    requires forall c <- captures ::
      if c.isLocal then s.Top().base + c.index < |s.slots| else c.index < |s.env[s.Top().closure]|
    ensures !C.CapturedIn(s.env + [s.Captures(captures)], |s.cells|)
  {
    var env := s.env + [s.Captures(captures)];
    forall c, k | 0 <= c < |env| && 0 <= k < |env[c]| ensures env[c][k] != |s.cells| {
      if c == |s.env| { assert captures[k] in captures; }
    }
  }

  lemma {:induction false} PushesDo(s: C.Store, args: seq<C.Value>, round: nat -> nat)
    requires s.Sound() && C.RoundsUp(round) && |s.slots| + |args| <= s.capacity
    ensures
      var t := s.(cells := s.cells + args, slots := s.slots + Fresh(|s.cells|, |args|));
      C.LegalRun(s, Pushes(args), round) && Play(s, Pushes(args), round) == t && t.Sound()
    decreases |args|
  {
    hide C.Legal;
    hide C.Apply;
    if args == [] {
      assert s.cells + args == s.cells && s.slots + Fresh(|s.cells|, 0) == s.slots;
    } else {
      PushDoes(s, args[0], round);
      OneOp(s, C.Op.Push(args[0]), round);
      PushesDo(s.Push(args[0]), args[1..], round);
      RunOn(s, [C.Op.Push(args[0])], Pushes(args[1..]), round);
      assert Pushes(args) == [C.Op.Push(args[0])] + Pushes(args[1..]);
      assert s.cells + [args[0]] + args[1..] == s.cells + args;
      assert s.slots + [|s.cells|] + Fresh(|s.cells| + 1, |args| - 1) == s.slots + Fresh(|s.cells|, |args|);
    }
  }

  lemma CallDoes(s: C.Store, c: nat, args: seq<C.Value>, maxSlots: nat, round: nat -> nat) returns (t: C.Store)
    requires s.Sound() && C.RoundsUp(round) && |s.slots| + 1 + |args| <= s.capacity && c < |s.env|
    ensures
      var vs := [C.Function(c)] + args;
      var ops := Pushes(vs) + [C.Op.Call(|args|, maxSlots)];
      && t == s.(cells := s.cells + vs, slots := s.slots + Fresh(|s.cells|, |vs|),
                 frames := s.frames + [C.Frame(c, |s.slots|)], capacity := t.capacity)
      && t.capacity >= s.capacity && t.capacity >= |s.slots| + |vs| + maxSlots
      && C.LegalRun(s, ops, round) && Play(s, ops, round) == t && t.Sound()
  {
    var vs := [C.Function(c)] + args;
    PushesDo(s, vs, round);
    var u := s.(cells := s.cells + vs, slots := s.slots + Fresh(|s.cells|, |vs|));
    var op := C.Op.Call(|args|, maxSlots);
    assert u.slots[|u.slots| - 1 - |args|] == |s.cells| && u.cells[|s.cells|] == C.Function(c);
    assert u.Peek(|args|) == C.Function(c);
    assert C.Legal(u, op);
    t := C.Apply(u, op, round);
    C.ReserveSound(u, |u.slots| + maxSlots, round);
    hide C.Legal;
    hide C.Apply;
    OneOp(u, op, round);
    RunOn(s, Pushes(vs), [op], round);
  }

  // ----- how the two agree -----

  /** The surroundings of a function literal: what the compiler knew, and the frames then. */
  datatype Lex = Lex(chain: seq<Level>, frames: seq<Frame>)

  /** The frames around a running function, and what the compiler knew at each of its jobs. */
  datatype Act = Act(outer: seq<Frame>, chains: seq<seq<Level>>)

  /** `place` says which of the machine's cells each variable has. */
  datatype Link = Link(place: seq<nat>, lex: seq<Lex>, acts: seq<Act>)

  function Moved(cells: seq<nat>, place: seq<nat>): (r: seq<nat>)
    ensures |r| == |cells|
  {
    seq(|cells|, i requires 0 <= i < |cells| => if cells[i] < |place| then place[cells[i]] else 0)
  }

  ghost predicate Known(cells: seq<nat>, place: seq<nat>) {
    forall c <- cells :: c < |place|
  }

  ghost predicate ValuesAgree(values: seq<C.Value>, cells: seq<C.Value>, place: seq<nat>) {
    && |place| == |values|
    && (forall i :: 0 <= i < |place| ==> place[i] < |cells| && cells[place[i]] == values[i])
    && (forall i, j :: 0 <= i < j < |place| ==> place[i] != place[j])
  }

  ghost predicate ClosureAgrees(b: Body, p: Proto, env: seq<nat>, x: Lex, place: seq<nat>) {
    && x.chain != [] && |x.frames| == |x.chain| && Proper(x.chain) && Slotted(x.chain, x.frames)
    && AllNames(x.chain) == b.names && |b.names| == |b.cells| && Known(b.cells, place)
    && AllCells(x.frames) == Moved(b.cells, place)
    && var (code, mid) := Compile(b.code, Inner(x.chain, b.params), false);
    && Linked(mid[..|x.chain|], x.frames)
    && var f := x.frames[|x.frames| - 1];
    && env == CapturedCells(mid[|x.chain|].upvalues, f.slots, f.ups)
    && p == ProtoOf(|b.params|, code)
  }

  ghost predicate OutersSlotted(chain: seq<Level>, outer: seq<Frame>) {
    |chain| == |outer| + 1 && forall l :: 0 <= l < |outer| ==> |outer[l].slots| == |chain[l].locals|
  }

  ghost predicate TaskAgrees(code: Code, top: bool, job: Job, chain: seq<Level>, names: seq<string>, outer: seq<Frame>, ups: seq<nat>) {
    && OutersSlotted(chain, outer) && Proper(chain) && AllNames(chain) == names && (top ==> outer == [])
    && job == Run(Compile(code, chain, top).0)
    && Linked(Compile(code, chain, top).1, outer + [Frame([], ups)])
  }

  /** The names that code declares in its own scope. */
  function Declared(code: Code, top: bool): seq<string> {
    if top then [] else
    match code
    case End => []
    case Declare(name, rest) => [name] + Declared(rest, top)
    case Define(name, _, _, rest) => [name] + Declared(rest, top)
    case Use(_, rest) => Declared(rest, top)
    case Assign(_, rest) => Declared(rest, top)
    case Scope(_, rest) => Declared(rest, top)
    case Repeat(_, rest) => Declared(rest, top)
    case Fn(_, _, rest) => Declared(rest, top)
    case Call(_, rest) => Declared(rest, top)
  }

  ghost predicate TasksAgree(todo: seq<Task>, jobs: seq<Job>, chains: seq<seq<Level>>, names: seq<string>, outer: seq<Frame>, ups: seq<nat>)
    decreases |todo|
  {
    && |jobs| == |todo| == |chains|
    && (todo == [] ||
        match todo[0]
        case Do(code, top) =>
          && TaskAgrees(code, top, jobs[0], chains[0], names, outer, ups)
          && TasksAgree(todo[1..], jobs[1..], chains[1..], names + Declared(code, top), outer, ups)
        case Cut(n) =>
          && |AllCells(outer)| < n <= |names| && jobs[0] == Leave(|names| - n)
          && TasksAgree(todo[1..], jobs[1..], chains[1..], names[..n], outer, ups))
  }

  ghost predicate ActAgrees(a: Activation, jobs: seq<Job>, act: Act, own: seq<nat>, ups: seq<nat>, place: seq<nat>) {
    && |a.names| == |a.cells| && Known(a.cells, place)
    && own != [] && Moved(a.cells, place) == AllCells(act.outer) + own
    && TasksAgree(a.todo, jobs, act.chains, a.names, act.outer, ups)
  }

  /** The slots of the frame at depth `i`. */
  ghost function Own(s: C.Store, i: nat): seq<nat> {
    var end := if i + 1 < |s.frames| then s.frames[i + 1].base else |s.slots|;
    if i < |s.frames| && s.frames[i].base <= end <= |s.slots| then s.slots[s.frames[i].base..end] else []
  }

  ghost predicate FrameAgrees(s: C.Store, a: Activation, jobs: seq<Job>, act: Act, place: seq<nat>, i: nat)
    requires s.Sound() && i < |s.frames|
  {
    && ActAgrees(a, jobs, act, Own(s, i), s.env[s.frames[i].closure], place)
    && s.frames[i].base + Room(jobs, |Own(s, i)|) <= s.capacity
  }

  ghost predicate CoreAgrees(s: C.Store, protos: seq<Proto>, w: World, k: Link) {
    && s.Sound() && ValuesAgree(w.values, s.cells, k.place)
    && 0 < |w.closures| == |protos| == |s.env| == |k.lex|
    && forall c :: 0 < c < |protos| ==> ClosureAgrees(w.closures[c], protos[c], s.env[c], k.lex[c], k.place)
  }

  ghost predicate Agree(m: Machine, w: World, k: Link) {
    && CoreAgrees(m.store, m.protos, w, k) && m.globals == w.globals
    && 0 < |w.active| == |m.todo| == |m.store.frames| == |k.acts|
    && forall i :: 0 <= i < |m.todo| ==> FrameAgrees(m.store, w.active[i], m.todo[i], k.acts[i], k.place, i)
  }

  // ----- more variables, more slots -----

  lemma MovedMore(cells: seq<nat>, place: seq<nat>, more: seq<nat>)
    requires Known(cells, place) && place <= more
    ensures Known(cells, more) && Moved(cells, more) == Moved(cells, place)
  {
    assert forall i :: 0 <= i < |cells| ==> cells[i] in cells;
  }

  lemma MovedJoin(a: seq<nat>, b: seq<nat>, place: seq<nat>)
    ensures Moved(a + b, place) == Moved(a, place) + Moved(b, place)
    ensures Known(a, place) && Known(b, place) ==> Known(a + b, place)
  {
  }

  lemma ClosureMore(b: Body, p: Proto, env: seq<nat>, x: Lex, place: seq<nat>, more: seq<nat>)
    requires ClosureAgrees(b, p, env, x, place) && place <= more
    ensures ClosureAgrees(b, p, env, x, more)
  {
    hide Moved;
    hide Known;
    hide AllNames;
    hide AllCells;
    hide Linked;
    hide Slotted;
    hide Proper;
    MovedMore(b.cells, place, more);
  }

  lemma ActMore(a: Activation, jobs: seq<Job>, act: Act, own: seq<nat>, ups: seq<nat>, place: seq<nat>, more: seq<nat>)
    requires ActAgrees(a, jobs, act, own, ups, place) && place <= more
    ensures ActAgrees(a, jobs, act, own, ups, more)
  {
    hide Moved;
    hide Known;
    hide TasksAgree;
    MovedMore(a.cells, place, more);
  }

  /** Nothing depends on the innermost frame's slots. */
  lemma LinkedAnyway(chain: seq<Level>, outer: seq<Frame>, a: seq<nat>, b: seq<nat>, ups: seq<nat>)
    requires Linked(chain, outer + [Frame(a, ups)])
    ensures Linked(chain, outer + [Frame(b, ups)])
  {
    var before, after := outer + [Frame(a, ups)], outer + [Frame(b, ups)];
    forall l | 0 < l < |chain| ensures LinkedAt(chain[l].upvalues, after, l) {
      assert LinkedAt(chain[l].upvalues, before, l);
    }
  }

  /** The compiler's names have slots, one each. */
  lemma Situated(chain: seq<Level>, names: seq<string>, cells: seq<nat>, outer: seq<Frame>, own: seq<nat>, ups: seq<nat>)
    requires OutersSlotted(chain, outer) && AllNames(chain) == names && |names| == |cells| && cells == AllCells(outer) + own
    ensures
      var frames := outer + [Frame(own, ups)];
      && Slotted(chain, frames) && AllCells(frames) == cells && |own| == |Innermost(chain).locals|
  {
    hide AllNames;
    hide AllCells;
    var n := |outer|;
    var frames := outer + [Frame(own, ups)];
    assert Slotted(chain[..n], outer);
    SameLength(chain[..n], outer);
    AllSplit(chain, frames);
    assert frames[..n] == outer && |own| == |chain[n].locals|;
  }

  lemma AllSplit(chain: seq<Level>, frames: seq<Frame>)
    requires chain != [] && frames != []
    ensures AllNames(chain) == AllNames(chain[..|chain| - 1]) + Innermost(chain).locals
    ensures AllCells(frames) == AllCells(frames[..|frames| - 1]) + frames[|frames| - 1].slots
  {
  }

  // ----- what the compiler knew at the next jobs -----

  /** Only names and the surrounding frames matter to where a task stands. */
  lemma SamePlace(a: seq<Level>, b: seq<Level>, names: seq<string>, outer: seq<Frame>)
    requires OutersSlotted(a, outer) && AllNames(a) == names
    requires |a| == |b| && forall l :: 0 <= l < |a| ==> a[l].locals == b[l].locals
    ensures OutersSlotted(b, outer) && AllNames(b) == names
  {
    SameNames(a, b, []);
  }

  lemma SameLocals(more: seq<Level>, chain: seq<Level>)
    requires chain != [] && Extends(more, chain) && Innermost(more).locals == Innermost(chain).locals
    ensures |more| == |chain| && forall l :: 0 <= l < |chain| ==> chain[l].locals == more[l].locals
  {
  }

  lemma NameTask(code: Code, name: string, rest: Code, top: bool, job: Job, chain: seq<Level>, names: seq<string>, outer: seq<Frame>, ups: seq<nat>)
    requires TaskAgrees(code, top, job, chain, names, outer, ups) && (code == Code.Use(name, rest) || code == Code.Assign(name, rest))
    ensures
      var (access, mid) := ResolveName(chain, name);
      && TaskAgrees(rest, top, Run(Compile(rest, mid, top).0), mid, names, outer, ups)
      && Linked(mid, outer + [Frame([], ups)])
  {
    hide Linked;
    hide Proper;
    hide Extends;
    hide AllNames;
    var mid := ResolveName(chain, name).1;
    NameKeeps(chain, name);
    SameLocals(mid, chain);
    SamePlace(chain, mid, names, outer);
    CompileKeeps(rest, mid, top);
    LinkedLess(Compile(rest, mid, top).1, mid, outer + [Frame([], ups)]);
  }

  lemma LocalTask(code: Code, name: string, rest: Code, job: Job, chain: seq<Level>, names: seq<string>, outer: seq<Frame>, ups: seq<nat>)
    requires TaskAgrees(code, false, job, chain, names, outer, ups) && code == Code.Declare(name, rest)
    ensures
      var more := SetLocals(chain, Innermost(chain).locals + [name]);
      TaskAgrees(rest, false, Run(Compile(rest, more, false).0), more, names + [name], outer, ups)
  {
    hide Linked;
    hide Proper;
    LocalsKeep(chain, Innermost(chain).locals + [name]);
    MoreNames(chain, names, outer, name);
  }

  lemma MoreNames(chain: seq<Level>, names: seq<string>, outer: seq<Frame>, name: string)
    requires OutersSlotted(chain, outer) && AllNames(chain) == names
    ensures
      var more := SetLocals(chain, Innermost(chain).locals + [name]);
      OutersSlotted(more, outer) && AllNames(more) == names + [name]
  {
    var n := |chain| - 1;
    var more := SetLocals(chain, Innermost(chain).locals + [name]);
    assert more[..n] == chain[..n];
    assert AllNames(chain[..n]) + (chain[n].locals + [name]) == AllNames(chain[..n]) + chain[n].locals + [name];
  }

  lemma BlockTask(code: Code, body: Code, rest: Code, top: bool, job: Job, chain: seq<Level>, names: seq<string>, outer: seq<Frame>, ups: seq<nat>)
    requires TaskAgrees(code, top, job, chain, names, outer, ups) && (code == Code.Scope(body, rest) || code == Code.Repeat(body, rest))
    ensures
      var (b, mid) := Compile(body, chain, false);
      var back := SetLocals(mid, Innermost(chain).locals);
      && TaskAgrees(body, false, Run(b), chain, names, outer, ups)
      && TaskAgrees(rest, top, Run(Compile(rest, back, top).0), back, names, outer, ups)
  {
    hide Linked;
    hide Proper;
    hide AllNames;
    var (b, mid) := Compile(body, chain, false);
    var back := SetLocals(mid, Innermost(chain).locals);
    var after := Compile(rest, back, top).1;
    BlockRestKeeps(code, body, rest, chain, top);
    ExtendsAgain(back, mid, chain);
    SameLocals(back, chain);
    LocalsKeep(mid, Innermost(chain).locals);
    hide Extends;
    SamePlace(chain, back, names, outer);
    var frames := outer + [Frame([], ups)];
    LinkedLess(after, back, frames);
    LinkedLess(back, mid, frames);
  }

  /** A function literal, compiled where `named` is known; the code after it; and what it
      captures. */
  lemma FunctionTask(params: seq<string>, body: Code, rest: Code, top: bool, named: seq<Level>, names: seq<string>, outer: seq<Frame>, ups: seq<nat>)
    requires OutersSlotted(named, outer) && Proper(named) && AllNames(named) == names && (top ==> outer == [])
    requires Linked(Compile(rest, Compile(body, Inner(named, params), false).1[..|named|], top).1, outer + [Frame([], ups)])
    ensures
      var mid := Compile(body, Inner(named, params), false).1;
      var back := mid[..|named|];
      && TaskAgrees(rest, top, Run(Compile(rest, back, top).0), back, names, outer, ups)
      && Linked(back, outer + [Frame([], ups)])
      && forall c <- mid[|named|].upvalues :: c.index < if c.isLocal then |Innermost(named).locals| else |ups|
  {
    hide AllNames;
    var inner := Inner(named, params);
    var mid := Compile(body, inner, false).1;
    var back := mid[..|named|];
    var frames := outer + [Frame([], ups)];
    NewLevel(named, params);
    CompileKeeps(body, inner, false);
    FunctionKeeps(named, params, mid);
    SameLocals(back, named);
    SamePlace(named, back, names, outer);
    CompileKeeps(rest, back, top);
    LinkedLess(Compile(rest, back, top).1, back, frames);
    assert ProperAt(mid, |named|) && mid[|named| - 1] == back[|named| - 1];
    forall c <- mid[|named|].upvalues ensures c.index < if c.isLocal then |Innermost(named).locals| else |ups| {
      var i :| 0 <= i < |mid[|named|].upvalues| && mid[|named|].upvalues[i] == c;
      assert InRange(mid[|named|].upvalues[i], mid[|named| - 1]);
    }
  }

  /** The closure that a function literal makes, in a frame with these slots. */
  lemma MadeAgrees(params: seq<string>, body: Code, named: seq<Level>, a: Activation, outer: seq<Frame>, own: seq<nat>, ups: seq<nat>, place: seq<nat>)
    requires OutersSlotted(named, outer) && Proper(named) && AllNames(named) == a.names
    requires |a.names| == |a.cells| && Known(a.cells, place) && Moved(a.cells, place) == AllCells(outer) + own
    requires Linked(Compile(body, Inner(named, params), false).1[..|named|], outer + [Frame([], ups)])
    ensures
      var (code, mid) := Compile(body, Inner(named, params), false);
      ClosureAgrees(Body(a.names, a.cells, params, body), ProtoOf(|params|, code),
                    CapturedCells(mid[|named|].upvalues, own, ups), Lex(named, outer + [Frame(own, ups)]), place)
  {
    hide AllNames;
    hide AllCells;
    hide Linked;
    hide Proper;
    hide CapturedCells;
    hide Moved;
    hide OutersSlotted;
    var mid := Compile(body, Inner(named, params), false).1;
    assert |named| == |outer| + 1 by { OutersCount(named, outer); }
    Situated(named, a.names, Moved(a.cells, place), outer, own, ups);
    LinkedAnyway(mid[..|named|], outer, [], own, ups);
  }

  lemma OutersCount(chain: seq<Level>, outer: seq<Frame>)
    requires OutersSlotted(chain, outer)
    ensures |chain| == |outer| + 1
  {
  }

  /** The body of a closure that is called, in its new frame. */
  lemma CalleeTask(b: Body, p: Proto, env: seq<nat>, x: Lex, place: seq<nat>)
    requires ClosureAgrees(b, p, env, x, place)
    ensures TaskAgrees(b.code, false, Run(p.code), Inner(x.chain, b.params), b.names + ([""] + b.params), x.frames, env)
  {
    hide AllCells;
    hide CapturedCells;
    hide Moved;
    var inner := Inner(x.chain, b.params);
    var mid := Compile(b.code, inner, false).1;
    NewLevel(x.chain, b.params);
    NewLink(x.frames, mid, []);
    assert inner[..|x.chain|] == x.chain;
    hide Linked;
    hide Proper;
  }

  lemma UpvalueHeld(name: string, chain: seq<Level>, frames: seq<Frame>)
    requires chain != [] && Proper(chain) && |frames| == |chain| && Linked(ResolveName(chain, name).1, frames)
    requires ResolveName(chain, name).0.Upvalue?
    ensures ResolveName(chain, name).0.index < |frames[|frames| - 1].ups|
  {
    ResolveKeeps(chain, name);
  }

  /** Where a name leads the machine: its slot or its capture has the variable's cell. */
  lemma NameFound(name: string, chain: seq<Level>, a: Activation, outer: seq<Frame>, own: seq<nat>, ups: seq<nat>, place: seq<nat>)
    requires OutersSlotted(chain, outer) && Proper(chain) && AllNames(chain) == a.names
    requires |a.names| == |a.cells| && Known(a.cells, place) && Moved(a.cells, place) == AllCells(outer) + own
    requires Linked(ResolveName(chain, name).1, outer + [Frame([], ups)])
    ensures
      match ResolveName(chain, name).0
      case Local(i) => i < |own| && a.Find(name).Some? && a.Find(name).value < |place| && own[i] == place[a.Find(name).value]
      case Upvalue(k) => k < |ups| && a.Find(name).Some? && a.Find(name).value < |place| && ups[k] == place[a.Find(name).value]
      case Global(n) => n == name && a.Find(name).None?
  {
    hide Linked;
    hide Proper;
    hide AllNames;
    hide AllCells;
    hide UpvalueFor;
    var frames := outer + [Frame(own, ups)];
    Situated(chain, a.names, Moved(a.cells, place), outer, own, ups);
    LinkedAnyway(ResolveName(chain, name).1, outer, [], own, ups);
    assert |frames| == |chain|;
    NameReaches(chain, frames, name);
    hide Slotted;
    if ResolveName(chain, name).0.Upvalue? { UpvalueHeld(name, chain, frames); }
    var i := Syntax.LastIndex(a.names, name);
    if i >= 0 { assert a.cells[i] in a.cells; }
  }

  // ----- one frame -----

  lemma ThenTask(code: Code, top: bool, job: Job, chain: seq<Level>, todo: seq<Task>, jobs: seq<Job>, chains: seq<seq<Level>>,
                 names: seq<string>, outer: seq<Frame>, ups: seq<nat>)
    requires TaskAgrees(code, top, job, chain, names, outer, ups) && TasksAgree(todo, jobs, chains, names + Declared(code, top), outer, ups)
    ensures TasksAgree([Do(code, top)] + todo, [job] + jobs, [chain] + chains, names, outer, ups)
  {
    hide TaskAgrees;
    assert ([Do(code, top)] + todo)[1..] == todo && ([job] + jobs)[1..] == jobs && ([chain] + chains)[1..] == chains;
  }

  lemma ThenCut(n: nat, todo: seq<Task>, jobs: seq<Job>, chains: seq<seq<Level>>, names: seq<string>, outer: seq<Frame>, ups: seq<nat>)
    requires |AllCells(outer)| < n <= |names| && TasksAgree(todo, jobs, chains, names[..n], outer, ups)
    ensures TasksAgree([Cut(n)] + todo, [Leave(|names| - n)] + jobs, [[]] + chains, names, outer, ups)
  {
    hide TaskAgrees;
    var task, job, chain := [Cut(n)], [Leave(|names| - n)], [[]];
    assert (task + todo)[1..] == todo && (job + jobs)[1..] == jobs && (chain + chains)[1..] == chains;
  }

  lemma HeadTask(a: Activation, jobs: seq<Job>, act: Act, own: seq<nat>, ups: seq<nat>, place: seq<nat>, code: Code, top: bool)
    requires ActAgrees(a, jobs, act, own, ups, place) && a.todo != [] && a.todo[0] == Do(code, top)
    ensures |jobs| == |a.todo| == |act.chains|
    ensures TaskAgrees(code, top, jobs[0], act.chains[0], a.names, act.outer, ups)
    ensures TasksAgree(a.todo[1..], jobs[1..], act.chains[1..], a.names + Declared(code, top), act.outer, ups)
  {
    hide TaskAgrees;
  }

  lemma EndFrame(a: Activation, jobs: seq<Job>, act: Act, own: seq<nat>, ups: seq<nat>, place: seq<nat>, top: bool)
    requires ActAgrees(a, jobs, act, own, ups, place) && a.todo != [] && a.todo[0] == Do(End, top)
    ensures jobs != [] && act.chains != [] && jobs[0] == Run(Stop)
    ensures ActAgrees(a.Next([]), jobs[1..], Act(act.outer, act.chains[1..]), own, ups, place)
  {
    HeadTask(a, jobs, act, own, ups, place, End, top);
    assert a.names + Declared(End, top) == a.names && [] + a.todo[1..] == a.todo[1..];
    hide TasksAgree;
  }

  lemma CutFrame(a: Activation, jobs: seq<Job>, act: Act, own: seq<nat>, ups: seq<nat>, place: seq<nat>, n: nat)
    requires ActAgrees(a, jobs, act, own, ups, place) && a.todo != [] && a.todo[0] == Cut(n)
    ensures jobs != [] && act.chains != [] && n <= |a.names| && n <= |a.cells|
    ensures jobs[0] == Leave(|a.names| - n) && |a.names| - n < |own|
    ensures ActAgrees(Activation(a.names[..n], a.cells[..n], a.todo[1..]), jobs[1..], Act(act.outer, act.chains[1..]),
                      own[..|own| - (|a.names| - n)], ups, place)
  {
    hide TaskAgrees;
    var k := |a.names| - n;
    assert |Moved(a.cells, place)| == |AllCells(act.outer)| + |own|;
    assert forall c <- a.cells[..n] :: c in a.cells;
    assert Known(a.cells[..n], place);
    assert Moved(a.cells[..n], place) == Moved(a.cells, place)[..n];
    assert (AllCells(act.outer) + own)[..n] == AllCells(act.outer) + own[..|own| - k];
  }

  /** One task in place of the first, with the same names. */
  lemma PlainFrame(a: Activation, jobs: seq<Job>, act: Act, own: seq<nat>, ups: seq<nat>, place: seq<nat>, code: Code, top: bool,
                   rest: Code, r: Job, chain: seq<Level>)
    requires ActAgrees(a, jobs, act, own, ups, place) && a.todo != [] && a.todo[0] == Do(code, top)
    requires TaskAgrees(rest, top, r, chain, a.names, act.outer, ups)
    requires Declared(rest, top) == Declared(code, top)
    ensures jobs != [] && act.chains != []
    ensures ActAgrees(a.Next([Do(rest, top)]), [r] + jobs[1..], Act(act.outer, [chain] + act.chains[1..]), own, ups, place)
  {
    hide TaskAgrees;
    HeadTask(a, jobs, act, own, ups, place, code, top);
    ThenTask(rest, top, r, chain, a.todo[1..], jobs[1..], act.chains[1..], a.names, act.outer, ups);
    hide TasksAgree;
  }

  /** A declaration: one more name, variable and slot. */
  lemma LocalFrame(a: Activation, jobs: seq<Job>, act: Act, own: seq<nat>, ups: seq<nat>, place: seq<nat>, code: Code,
                   name: string, rest: Code, r: Job, chain: seq<Level>, cell: nat)
    requires ActAgrees(a, jobs, act, own, ups, place) && a.todo != [] && a.todo[0] == Do(code, false)
    requires TaskAgrees(rest, false, r, chain, a.names + [name], act.outer, ups)
    requires Declared(code, false) == [name] + Declared(rest, false)
    ensures jobs != [] && act.chains != []
    ensures
      ActAgrees(Activation(a.names + [name], a.cells + [|place|], [Do(rest, false)] + a.todo[1..]), [r] + jobs[1..],
                Act(act.outer, [chain] + act.chains[1..]), own + [cell], ups, place + [cell])
  {
    hide TaskAgrees;
    HeadTask(a, jobs, act, own, ups, place, code, false);
    assert a.names + Declared(code, false) == a.names + [name] + Declared(rest, false);
    ThenTask(rest, false, r, chain, a.todo[1..], jobs[1..], act.chains[1..], a.names + [name], act.outer, ups);
    hide TasksAgree;
    MovedMore(a.cells, place, place + [cell]);
    MovedJoin(a.cells, [|place|], place + [cell]);
    assert Moved([|place|], place + [cell]) == [cell];
    assert AllCells(act.outer) + own + [cell] == AllCells(act.outer) + (own + [cell]);
  }

  lemma {:induction false} DeclaredCount(code: Code)
    ensures |Declared(code, false)| == LocalCount(code)
    decreases code
  {
    match code
    case End =>
    case Declare(_, rest) => DeclaredCount(rest);
    case Define(_, _, _, rest) => DeclaredCount(rest);
    case Use(_, rest) => DeclaredCount(rest);
    case Assign(_, rest) => DeclaredCount(rest);
    case Scope(_, rest) => DeclaredCount(rest);
    case Repeat(_, rest) => DeclaredCount(rest);
    case Fn(_, _, rest) => DeclaredCount(rest);
    case Call(_, rest) => DeclaredCount(rest);
  }

  /** A block, and what comes after it: the code after it, or the loop again. */
  lemma BlockFrame(a: Activation, jobs: seq<Job>, act: Act, own: seq<nat>, ups: seq<nat>, place: seq<nat>, code: Code, top: bool,
                   body: Code, b: Job, after: Code, r: Job, chain: seq<Level>)
    requires ActAgrees(a, jobs, act, own, ups, place) && a.todo != [] && a.todo[0] == Do(code, top)
    requires act.chains != [] && TaskAgrees(body, false, b, act.chains[0], a.names, act.outer, ups)
    requires TaskAgrees(after, top, r, chain, a.names, act.outer, ups)
    requires Declared(after, top) == Declared(code, top)
    ensures jobs != []
    ensures
      ActAgrees(a.Next([Do(body, false), Cut(|a.names|), Do(after, top)]),
                [b, Leave(LocalCount(body)), r] + jobs[1..],
                Act(act.outer, [act.chains[0], [], chain] + act.chains[1..]), own, ups, place)
  {
    hide TaskAgrees;
    var n, head := |a.names|, act.chains[0];
    HeadTask(a, jobs, act, own, ups, place, code, top);
    hide Declared;
    DeclaredCount(body);
    var todo, todos, chains := [Do(after, top)] + a.todo[1..], [r] + jobs[1..], [chain] + act.chains[1..];
    ThenTask(after, top, r, chain, a.todo[1..], jobs[1..], act.chains[1..], a.names, act.outer, ups);
    var inside := a.names + Declared(body, false);
    assert inside[..n] == a.names && |Moved(a.cells, place)| == n;
    ThenCut(n, todo, todos, chains, inside, act.outer, ups);
    ThenTask(body, false, b, head, [Cut(n)] + todo, [Leave(|inside| - n)] + todos, [[]] + chains, a.names, act.outer, ups);
    hide TasksAgree;
    assert [Do(body, false), Cut(n), Do(after, top)] + a.todo[1..] == [Do(body, false)] + ([Cut(n)] + todo);
    assert [b, Leave(LocalCount(body)), r] + jobs[1..] == [b] + ([Leave(|inside| - n)] + todos);
    assert [head, [], chain] + act.chains[1..] == [head] + ([[]] + chains);
  }

  // ----- room for every push -----

  lemma {:induction false} GrownCounts(code: Code, chain: seq<Level>, top: bool)
    requires chain != []
    ensures Grown(Compile(code, chain, top).0) == if top then 0 else LocalCount(code)
    decreases code
  {
    match code
    case End =>
    case Declare(name, rest) => GrownCounts(rest, if top then chain else SetLocals(chain, Innermost(chain).locals + [name]), top);
    case Use(name, rest) => GrownCounts(rest, ResolveName(chain, name).1, top);
    case Assign(name, rest) => GrownCounts(rest, ResolveName(chain, name).1, top);
    case Scope(body, rest) => GrownCounts(rest, SetLocals(Compile(body, chain, false).1, Innermost(chain).locals), top);
    case Repeat(body, rest) => GrownCounts(rest, SetLocals(Compile(body, chain, false).1, Innermost(chain).locals), top);
    case Fn(params, body, rest) => GrownCounts(rest, Compile(body, Inner(chain, params), false).1[..|chain|], top);
    case Define(name, params, body, rest) =>
      var named := if top then chain else SetLocals(chain, Innermost(chain).locals + [name]);
      GrownCounts(rest, Compile(body, Inner(named, params), false).1[..|chain|], top);
    case Call(_, rest) => GrownCounts(rest, chain, top);
  }

  lemma RoomRun(c: Compiled, jobs: seq<Job>, h: nat)
    ensures Room([Run(c)] + jobs, h) == Max(Tall(c, h) + 1, Room(jobs, h + Grown(c)))
  {
    assert ([Run(c)] + jobs)[1..] == jobs;
  }

  lemma RoomLeave(count: nat, jobs: seq<Job>, h: nat)
    requires count <= h
    ensures Room([Leave(count)] + jobs, h) == Max(h + 1, Room(jobs, h - count))
  {
    assert ([Leave(count)] + jobs)[1..] == jobs;
  }

  /** Going on with the rest of the code, with the slots it has then, needs no more room. */
  lemma RoomRest(c: Compiled, rest: Compiled, jobs: seq<Job>, h: nat, then_: nat)
    requires c != Stop && c.rest == rest
    requires then_ == if c.NewLocal? || (c.Closure? && c.naming.AsLocal?) then h + 1 else h
    ensures Room([Run(rest)] + jobs, then_) <= Room([Run(c)] + jobs, h)
  {
    hide Room;
    TallRest(c, rest, h, then_);
    RoomRun(c, jobs, h);
    RoomRun(rest, jobs, then_);
  }

  lemma TallRest(c: Compiled, rest: Compiled, h: nat, then_: nat)
    requires c != Stop && c.rest == rest
    requires then_ == if c.NewLocal? || (c.Closure? && c.naming.AsLocal?) then h + 1 else h
    ensures Tall(rest, then_) <= Tall(c, h) && then_ + Grown(rest) == h + Grown(c)
  {
  }

  lemma TallBlock(c: Compiled, body: Compiled, count: nat, rest: Compiled, h: nat)
    requires c == Enclosed(body, count, rest) || c == Looped(body, count, rest)
    ensures Tall(body, h) <= Tall(c, h) && h + count + 1 <= Tall(c, h) && Tall(rest, h) <= Tall(c, h) && Grown(rest) == Grown(c)
  {
  }

  lemma RoomBlock(c: Compiled, body: Compiled, count: nat, rest: Compiled, again: Compiled, jobs: seq<Job>, h: nat)
    requires (c == Enclosed(body, count, rest) && again == rest) || (c == Looped(body, count, rest) && again == c)
    requires Grown(body) == count
    ensures Room([Run(body), Leave(count), Run(again)] + jobs, h) <= Room([Run(c)] + jobs, h)
  {
    hide Room;
    hide Tall;
    hide Grown;
    TallBlock(c, body, count, rest, h);
    var back := [Run(again)] + jobs;
    var leaving := [Leave(count)] + back;
    assert [Run(body), Leave(count), Run(again)] + jobs == [Run(body)] + leaving;
    RoomRun(body, leaving, h);
    assert h + Grown(body) - count == h;
    RoomLeave(count, back, h + Grown(body));
    RoomRun(again, jobs, h);
    RoomRun(c, jobs, h);
  }

  lemma RoomStop(jobs: seq<Job>, h: nat)
    ensures Room(jobs, h) <= Room([Run(Stop)] + jobs, h)
  {
    RoomRun(Stop, jobs, h);
  }

  // ----- the variables of all frames -----

  lemma CoreMore(s: C.Store, protos: seq<Proto>, w: World, k: Link, more: seq<C.Value>, t: C.Store)
    requires CoreAgrees(s, protos, w, k) && t.Sound() && t.cells == s.cells + more && t.env == s.env
    ensures CoreAgrees(t, protos, w, k)
  {
    hide ClosureAgrees;
  }

  lemma CoreWritten(s: C.Store, protos: seq<Proto>, w: World, k: Link, cell: nat, v: C.Value, more: seq<C.Value>, t: C.Store)
    requires CoreAgrees(s, protos, w, k) && cell < |k.place| && t.Sound() && t.env == s.env
    requires t.cells == s.cells[k.place[cell] := v] + more
    ensures CoreAgrees(t, protos, w.Write(cell, v), k)
  {
    hide ClosureAgrees;
  }

  /** A new variable in the machine's next cell. */
  lemma CoreNew(s: C.Store, protos: seq<Proto>, w: World, k: Link, vs: seq<C.Value>, values: World, t: C.Store)
    requires CoreAgrees(s, protos, w, k) && t.Sound() && t.env == s.env
    requires t.cells == s.cells + vs && values.values == w.values + vs && values.closures == w.closures
    ensures CoreAgrees(t, protos, values, k.(place := k.place + Fresh(|s.cells|, |vs|)))
  {
    hide ClosureAgrees;
    var more := k.place + Fresh(|s.cells|, |vs|);
    forall c | 0 < c < |protos| ensures ClosureAgrees(w.closures[c], protos[c], s.env[c], k.lex[c], more) {
      ClosureMore(w.closures[c], protos[c], s.env[c], k.lex[c], k.place, more);
    }
  }

  /** A new closure. */
  lemma CoreClosure(s: C.Store, protos: seq<Proto>, w: World, k: Link, b: Body, p: Proto, x: Lex, t: C.Store, after: World)
    requires CoreAgrees(s, protos, w, k) && t.Sound() && t.cells == s.cells && |t.env| == |s.env| + 1 && t.env[..|s.env|] == s.env
    requires ClosureAgrees(b, p, t.env[|s.env|], x, k.place)
    requires after.values == w.values && after.closures == w.closures + [b]
    ensures CoreAgrees(t, protos + [p], after, k.(lex := k.lex + [x]))
  {
    hide ClosureAgrees;
    forall c | 0 < c < |protos| + 1
      ensures ClosureAgrees((w.closures + [b])[c], (protos + [p])[c], t.env[c], (k.lex + [x])[c], k.place)
    {
      if c < |protos| { assert t.env[c] == t.env[..|s.env|][c]; }
    }
  }

  lemma OwnSlots(s: C.Store, i: nat)
    requires s.Sound() && i < |s.frames|
    ensures
      var end := if i + 1 < |s.frames| then s.frames[i + 1].base else |s.slots|;
      s.frames[i].base < end <= |s.slots| && Own(s, i) == s.slots[s.frames[i].base..end] && |Own(s, i)| == end - s.frames[i].base
  {
  }

  /** A frame below the current one is as it was. */
  lemma FrameKept(s: C.Store, t: C.Store, a: Activation, jobs: seq<Job>, act: Act, place: seq<nat>, more: seq<nat>, i: nat)
    requires s.Sound() && t.Sound() && i < |s.frames| && i < |t.frames| && FrameAgrees(s, a, jobs, act, place, i)
    requires t.frames[i] == s.frames[i] && Own(t, i) == Own(s, i) && s.env <= t.env && s.capacity <= t.capacity && place <= more
    ensures FrameAgrees(t, a, jobs, act, more, i)
  {
    hide ActAgrees;
    hide Room;
    hide Own;
    ActMore(a, jobs, act, Own(s, i), s.env[s.frames[i].closure], place, more);
  }

  /** A step of the current frame. */
  lemma Ordinary(m: Machine, w: World, k: Link, m2: Machine, w2: World, k2: Link)
    requires Agree(m, w, k) && CoreAgrees(m2.store, m2.protos, w2, k2) && m2.globals == w2.globals
    requires m2.store.frames == m.store.frames && m2.store.capacity == m.store.capacity
    requires m.store.env <= m2.store.env && k.place <= k2.place
    requires var base := m.store.Top().base; base <= |m2.store.slots| && m2.store.slots[..base] == m.store.slots[..base]
    requires |w2.active| == |w.active| && |m2.todo| == |m.todo| && |k2.acts| == |k.acts|
    requires
      var n := |m.todo| - 1;
      && w2.active[..n] == w.active[..n] && m2.todo[..n] == m.todo[..n] && k2.acts[..n] == k.acts[..n]
      && FrameAgrees(m2.store, w2.active[n], m2.todo[n], k2.acts[n], k2.place, n)
    ensures Agree(m2, w2, k2)
  {
    hide FrameAgrees;
    hide Own;
    assert m.store.Sound() && m2.store.Sound();
    hide CoreAgrees;
    var n := |m.todo| - 1;
    forall i | 0 <= i < |m.todo| ensures FrameAgrees(m2.store, w2.active[i], m2.todo[i], k2.acts[i], k2.place, i) {
      if i < n {
        assert w2.active[i] == w2.active[..n][i] && m2.todo[i] == m2.todo[..n][i] && k2.acts[i] == k2.acts[..n][i];
        OwnBelow(m.store, m2.store, i);
        FrameKept(m.store, m2.store, w.active[i], m.todo[i], k.acts[i], k.place, k2.place, i);
      }
    }
  }

  lemma SamePrefix(a: seq<nat>, b: seq<nat>, n: nat, i: nat, j: nat)
    requires i <= j <= n <= |a| && n <= |b| && a[..n] == b[..n]
    ensures a[i..j] == b[i..j]
  {
    assert a[..n][i..j] == a[i..j] && b[..n][i..j] == b[i..j];
  }

  lemma OwnBelow(s: C.Store, t: C.Store, i: nat)
    requires s.Sound() && t.Sound() && t.frames == s.frames && i + 1 < |s.frames|
    requires var base := s.Top().base; base <= |t.slots| && t.slots[..base] == s.slots[..base]
    ensures Own(t, i) == Own(s, i)
  {
    var base := s.Top().base;
    OwnSlots(s, i);
    OwnSlots(t, i);
    C.BaseBelowTop(s, i + 2);
    hide C.Store.Sound;
    SamePrefix(s.slots, t.slots, base, s.frames[i].base, s.frames[i + 1].base);
  }

  // ----- steps -----

  /** The machine's operations are legal, both read the same, and both go on alike. */
  ghost predicate Stepped(m: Machine, w: World, ch: Choice, round: nat -> nat, k: Link)
    requires m.store.Sound() && C.RoundsUp(round)
  {
    && C.LegalRun(m.store, Ops(m, ch), round)
    && Step(m, ch, round).1 == SourceStep(w, ch).1
    && Agree(Step(m, ch, round).0, SourceStep(w, ch).0, k)
  }

  /** The current frame: its slots are the last ones, and there is room for a push. */
  ghost predicate TopThere(m: Machine, w: World, k: Link) {
    var s, n := m.store, |m.todo| - 1;
    && s.Sound() && n >= 0 && |w.active| == n + 1 == |k.acts| == |s.frames| && s.Top() == s.frames[n] && m.globals == w.globals
    && s.Top().base < |s.slots| < s.capacity && s.Top().closure < |s.env|
    && Own(s, n) == s.slots[s.Top().base..] && |s.slots| == s.Top().base + |Own(s, n)|
    && ActAgrees(w.active[n], m.todo[n], k.acts[n], Own(s, n), s.env[s.Top().closure], k.place)
    && s.Top().base + Room(m.todo[n], |Own(s, n)|) <= s.capacity
    && s.slots == s.slots[..s.Top().base] + Own(s, n)
    && CoreAgrees(s, m.protos, w, k)
  }

  lemma TopFacts(m: Machine, w: World, k: Link)
    requires Agree(m, w, k)
    ensures TopThere(m, w, k)
  {
    var s, n := m.store, |m.todo| - 1;
    OwnSlots(s, n);
    assert FrameAgrees(s, w.active[n], m.todo[n], k.acts[n], k.place, n);
    hide CoreAgrees;
    hide ActAgrees;
  }

  /** A step of the current frame, by its parts. */
  lemma TopStep(m: Machine, w: World, k: Link, m2: Machine, w2: World, k2: Link, own: seq<nat>)
    requires Agree(m, w, k) && CoreAgrees(m2.store, m2.protos, w2, k2) && m2.globals == w2.globals
    requires m2.store.frames == m.store.frames && m2.store.capacity == m.store.capacity
    requires m.store.env <= m2.store.env && k.place <= k2.place
    requires m2.store.slots == m.store.slots[..m.store.Top().base] + own
    requires |w2.active| == |w.active| && |m2.todo| == |m.todo| && |k2.acts| == |k.acts|
    requires
      var n := |m.todo| - 1;
      && w2.active[..n] == w.active[..n] && m2.todo[..n] == m.todo[..n] && k2.acts[..n] == k.acts[..n]
      && ActAgrees(w2.active[n], m2.todo[n], k2.acts[n], own, m.store.env[m.store.Top().closure], k2.place)
      && Room(m2.todo[n], |own|) <= Room(m.todo[n], |Own(m.store, n)|)
    ensures Agree(m2, w2, k2)
  {
    hide Agree;
    hide CoreAgrees;
    hide ActAgrees;
    hide Room;
    hide Own;
    hide C.Store.Sound;
    TopFacts(m, w, k);
    var n, t := |m.todo| - 1, m2.store;
    CoreParts(t, m2.protos, w2, k2);
    hide ValuesAgree;
    hide ClosureAgrees;
    OwnSlots(t, n);
    assert t.slots[t.Top().base..] == own && t.slots[..t.Top().base] == m.store.slots[..m.store.Top().base];
    assert t.Top() == t.frames[n] && t.env[t.Top().closure] == m.store.env[m.store.Top().closure] && Own(t, n) == own;
    assert FrameAgrees(t, w2.active[n], m2.todo[n], k2.acts[n], k2.place, n);
    hide FrameAgrees;
    Ordinary(m, w, k, m2, w2, k2);
  }

  /** The current frame's task. */
  ghost predicate HasTask(m: Machine, w: World, k: Link, code: Code, top: bool) {
    Agree(m, w, k) && w.active[|w.active| - 1].todo != [] && w.active[|w.active| - 1].todo[0] == Do(code, top)
  }

  /** What the compiler knew at the current task. */
  ghost predicate TaskThere(m: Machine, w: World, k: Link, code: Code, top: bool) {
    var n, s := |m.todo| - 1, m.store;
    && n >= 0 && |w.active| == n + 1 == |k.acts|
    && m.todo[n] != [] && k.acts[n].chains != [] && s.frames != [] && s.Top().closure < |s.env|
    && TaskAgrees(code, top, m.todo[n][0], k.acts[n].chains[0], w.active[n].names, k.acts[n].outer, s.env[s.Top().closure])
    && m.todo[n] == [m.todo[n][0]] + m.todo[n][1..]
  }

  lemma TaskFacts(m: Machine, w: World, k: Link, code: Code, top: bool)
    requires HasTask(m, w, k, code, top)
    ensures TaskThere(m, w, k, code, top)
  {
    hide Agree;
    hide CoreAgrees;
    hide ActAgrees;
    hide TaskAgrees;
    hide TasksAgree;
    hide Room;
    hide Own;
    hide C.Store.Sound;
    TopFacts(m, w, k);
    var n := |m.todo| - 1;
    HeadTask(w.active[n], m.todo[n], k.acts[n], Own(m.store, n), m.store.env[m.store.Top().closure], k.place, code, top);
  }

  lemma EndStep(m: Machine, w: World, k: Link, ch: Choice, round: nat -> nat, top: bool) returns (k2: Link)
    requires HasTask(m, w, k, End, top) && C.RoundsUp(round)
    ensures m.store.Sound() && Stepped(m, w, ch, round, k2)
  {
    hide Agree;
    hide CoreAgrees;
    hide ActAgrees;
    hide TaskAgrees;
    hide Room;
    hide Own;
    hide C.Store.Sound;
    TopFacts(m, w, k);
    TaskFacts(m, w, k, End, top);
    var n := |m.todo| - 1;
    var a, jobs, act, own := w.active[n], m.todo[n], k.acts[n], Own(m.store, n);
    EndFrame(a, jobs, act, own, m.store.env[m.store.Top().closure], k.place, top);
    k2 := k.(acts := k.acts[n := Act(act.outer, act.chains[1..])]);
    var m2, w2 := Step(m, ch, round).0, SourceStep(w, ch).0;
    assert [] + jobs[1..] == jobs[1..];
    assert m2 == m.(todo := m.todo[n := jobs[1..]]) && w2 == w.With(a.Next([]));
    RoomStop(jobs[1..], |own|);
    assert CoreAgrees(m2.store, m2.protos, w2, k2) by { SameCore(m.store, m.protos, w, k, w2, k2); }
    TopStep(m, w, k, m2, w2, k2, own);
  }

  lemma SameCore(s: C.Store, protos: seq<Proto>, w: World, k: Link, w2: World, k2: Link)
    requires CoreAgrees(s, protos, w, k) && w2.values == w.values && w2.closures == w.closures && k2.place == k.place && k2.lex == k.lex
    ensures CoreAgrees(s, protos, w2, k2)
  {
    hide ClosureAgrees;
  }

  lemma TaskParts(code: Code, top: bool, job: Job, chain: seq<Level>, names: seq<string>, outer: seq<Frame>, ups: seq<nat>)
    requires TaskAgrees(code, top, job, chain, names, outer, ups)
    ensures OutersSlotted(chain, outer) && |chain| == |outer| + 1 && Proper(chain) && AllNames(chain) == names && (top ==> outer == [])
    ensures job == Run(Compile(code, chain, top).0) && Linked(Compile(code, chain, top).1, outer + [Frame([], ups)])
  {
  }

  lemma ActParts(a: Activation, jobs: seq<Job>, act: Act, own: seq<nat>, ups: seq<nat>, place: seq<nat>)
    requires ActAgrees(a, jobs, act, own, ups, place)
    ensures |a.names| == |a.cells| && Known(a.cells, place) && own != [] && Moved(a.cells, place) == AllCells(act.outer) + own
    ensures |jobs| == |a.todo| == |act.chains|
  {
  }

  lemma CoreParts(s: C.Store, protos: seq<Proto>, w: World, k: Link)
    requires CoreAgrees(s, protos, w, k)
    ensures s.Sound() && ValuesAgree(w.values, s.cells, k.place) && |w.closures| == |protos| == |s.env| == |k.lex|
    ensures forall c :: 0 < c < |protos| ==> ClosureAgrees(w.closures[c], protos[c], s.env[c], k.lex[c], k.place)
  {
    hide ClosureAgrees;
  }

  lemma SamePlaces(s: C.Store, protos: seq<Proto>, w: World, k: Link)
    requires CoreAgrees(s, protos, w, k)
    ensures |k.place| == |w.values|
  {
    hide ClosureAgrees;
  }

  /** The access leads to this cell. */
  ghost predicate Leads(access: Access, own: seq<nat>, ups: seq<nat>, cell: nat) {
    match access
    case Local(i) => i < |own| && own[i] == cell
    case Upvalue(j) => j < |ups| && ups[j] == cell
    case Global(_) => false
  }

  lemma VariableRead(m: Machine, access: Access, cell: nat, round: nat -> nat)
    requires m.store.Sound() && C.RoundsUp(round) && |m.store.slots| < m.store.capacity && cell < |m.store.cells|
    requires Leads(access, m.store.slots[m.store.Top().base..], m.store.env[m.store.Top().closure], cell)
    ensures
      var s := m.store;
      var t := s.(cells := s.cells + [s.cells[cell]]);
      && C.LegalRun(s, ReadOps(m, access), round) && Play(s, ReadOps(m, access), round) == t && t.Sound()
      && C.Apply(s, ReadOps(m, access)[0], round).Peek(0) == s.cells[cell]
  {
    ReadDoes(m.store, ReadOps(m, access)[0], cell, round);
    assert ReadOps(m, access) == [ReadOps(m, access)[0], C.Op.Pop];
    hide C.LegalRun;
    hide Play;
    hide C.Apply;
    hide C.Store.Sound;
  }

  lemma VariableWritten(m: Machine, access: Access, cell: nat, v: C.Value, round: nat -> nat)
    requires m.store.Sound() && C.RoundsUp(round) && |m.store.slots| < m.store.capacity && cell < |m.store.cells|
    requires Leads(access, m.store.slots[m.store.Top().base..], m.store.env[m.store.Top().closure], cell)
    ensures
      var s := m.store;
      var t := s.(cells := s.cells[cell := v] + [v]);
      C.LegalRun(s, WriteOps(m, access, v), round) && Play(s, WriteOps(m, access, v), round) == t && t.Sound()
  {
    WriteDoes(m.store, WriteOps(m, access, v)[1], cell, v, round);
    assert WriteOps(m, access, v) == [C.Op.Push(v), WriteOps(m, access, v)[1], C.Op.Pop];
    hide C.LegalRun;
    hide Play;
    hide C.Apply;
    hide C.Store.Sound;
  }

  /** Nothing happens where the program has stopped. */
  lemma StillStep(m: Machine, w: World, k: Link, ch: Choice, round: nat -> nat)
    requires Agree(m, w, k) && C.RoundsUp(round)
    requires Ops(m, ch) == [] && Control(m, ch) == m && SourceStep(w, ch) == (w, [])
    ensures m.store.Sound() && Stepped(m, w, ch, round, k)
  {
    TopFacts(m, w, k);
    hide Agree;
    hide CoreAgrees;
  }

  /** Where a task that names a variable stands, and where the name leads. */
  ghost predicate NameThere(m: Machine, w: World, k: Link, code: Code, name: string, rest: Code, top: bool) {
    && TopThere(m, w, k) && TaskThere(m, w, k, code, top)
    && var n := |m.todo| - 1;
    && var a, jobs, act, own, ups := w.active[n], m.todo[n], k.acts[n], Own(m.store, n), m.store.env[m.store.Top().closure];
    && var chain := act.chains[0];
    && chain != []
    && var (access, mid) := ResolveName(chain, name);
    && var r := Compile(rest, mid, top).0;
    && jobs[0] == Run(if code.Use? then Read(access, r) else Write(access, r))
    && ActAgrees(a.Next([Do(rest, top)]), [Run(r)] + jobs[1..], Act(act.outer, [mid] + act.chains[1..]), own, ups, k.place)
    && Room([Run(r)] + jobs[1..], |own|) <= Room(jobs, |own|)
    && match access
       case Global(g) => g == name && a.Find(name).None?
       case _ => a.Find(name).Some? && a.Find(name).value < |k.place| && Leads(access, own, ups, k.place[a.Find(name).value])
  }

  lemma NameFacts(m: Machine, w: World, k: Link, code: Code, name: string, rest: Code, top: bool)
    requires HasTask(m, w, k, code, top) && (code == Code.Use(name, rest) || code == Code.Assign(name, rest))
    ensures NameThere(m, w, k, code, name, rest, top)
  {
    hide Agree;
    hide CoreAgrees;
    hide ActAgrees;
    hide TaskAgrees;
    hide Room;
    hide Own;
    hide C.Store.Sound;
    TopFacts(m, w, k);
    TaskFacts(m, w, k, code, top);
    var n := |m.todo| - 1;
    var a, jobs, act, own, ups := w.active[n], m.todo[n], k.acts[n], Own(m.store, n), m.store.env[m.store.Top().closure];
    var chain := act.chains[0];
    TaskParts(code, top, jobs[0], chain, a.names, act.outer, ups);
    ActParts(a, jobs, act, own, ups, k.place);
    NameTask(code, name, rest, top, jobs[0], chain, a.names, act.outer, ups);
    NameFound(name, chain, a, act.outer, own, ups, k.place);
    var (access, mid) := ResolveName(chain, name);
    hide ResolveName;
    hide OutersSlotted;
    hide Proper;
    hide Linked;
    var r := Compile(rest, mid, top).0;
    PlainFrame(a, jobs, act, own, ups, k.place, code, top, rest, Run(r), mid);
    RoomRest(if code.Use? then Read(access, r) else Write(access, r), r, jobs[1..], |own|, |own|);
  }

  lemma SourceHead(w: World, ch: Choice, code: Code, top: bool)
    requires w.active != [] && w.active[|w.active| - 1].todo != [] && w.active[|w.active| - 1].todo[0] == Do(code, top)
    ensures SourceStep(w, ch) == SourceCode(w, w.active[|w.active| - 1], code, top, ch)
  {
    hide SourceCode;
  }

  lemma MachineHead(m: Machine, ch: Choice, code: Compiled)
    requires m.todo != [] && m.todo[|m.todo| - 1] != [] && m.todo[|m.todo| - 1][0] == Run(code)
    ensures Ops(m, ch) == CodeOps(m, code, ch) && Control(m, ch) == CodeControl(m, code, ch) && (Reading(m) <==> code.Read?)
  {
    hide CodeOps;
    hide CodeControl;
  }

  lemma PlaceRead(values: seq<C.Value>, cells: seq<C.Value>, place: seq<nat>, cell: nat)
    requires ValuesAgree(values, cells, place) && cell < |place|
    ensures |place| == |values| && place[cell] < |cells| && cells[place[cell]] == values[cell]
  {
  }

  lemma UseStep(m: Machine, w: World, k: Link, ch: Choice, round: nat -> nat, name: string, rest: Code, top: bool) returns (k2: Link)
    requires HasTask(m, w, k, Code.Use(name, rest), top) && C.RoundsUp(round)
    ensures m.store.Sound() && Stepped(m, w, ch, round, k2)
  {
    hide Agree;
    hide CoreAgrees;
    hide ActAgrees;
    hide TaskAgrees;
    hide Room;
    hide Own;
    hide C.Store.Sound;
    hide ResolveName;
    hide Compile;
    hide C.LegalRun;
    hide C.Apply;
    hide Leads;
    hide ClosureAgrees;
    hide ValuesAgree;
    NameFacts(m, w, k, Code.Use(name, rest), name, rest, top);
    SourceHead(w, ch, Code.Use(name, rest), top);
    var n, s := |m.todo| - 1, m.store;
    var a, jobs, act, own := w.active[n], m.todo[n], k.acts[n], Own(s, n);
    var (access, mid) := ResolveName(act.chains[0], name);
    MachineHead(m, ch, jobs[0].code);
    hide SourceStep;
    hide Ops;
    hide Control;
    hide Reading;
    CoreParts(s, m.protos, w, k);
    k2 := k.(acts := k.acts[n := Act(act.outer, [mid] + act.chains[1..])]);
    var v: C.Value;
    match access {
      case Global(_) =>
        if name !in m.globals {
          StillStep(m, w, k, ch, round);
          return k;
        }
        v := m.globals[name];
        PassingDoes(s, v, round);
      case _ =>
        var cell := a.Find(name).value;
        PlaceRead(w.values, s.cells, k.place, cell);
        v := w.values[cell];
        VariableRead(m, access, k.place[cell], round);
    }
    hide Play;
    var m2, w2 := Step(m, ch, round).0, SourceStep(w, ch).0;
    CoreMore(s, m.protos, w, k, [v], m2.store);
    SameCore(m2.store, m.protos, w, k, w2, k2);
    TopStep(m, w, k, m2, w2, k2, own);
  }

  lemma AssignStep(m: Machine, w: World, k: Link, ch: Choice, round: nat -> nat, name: string, rest: Code, top: bool) returns (k2: Link)
    requires HasTask(m, w, k, Code.Assign(name, rest), top) && C.RoundsUp(round)
    ensures m.store.Sound() && Stepped(m, w, ch, round, k2)
  {
    hide Agree;
    hide CoreAgrees;
    hide ActAgrees;
    hide TaskAgrees;
    hide Room;
    hide Own;
    hide C.Store.Sound;
    hide ResolveName;
    hide Compile;
    hide C.LegalRun;
    hide C.Apply;
    hide Leads;
    hide ClosureAgrees;
    hide ValuesAgree;
    NameFacts(m, w, k, Code.Assign(name, rest), name, rest, top);
    SourceHead(w, ch, Code.Assign(name, rest), top);
    var n, s := |m.todo| - 1, m.store;
    var a, jobs, act, own := w.active[n], m.todo[n], k.acts[n], Own(s, n);
    var (access, mid) := ResolveName(act.chains[0], name);
    MachineHead(m, ch, jobs[0].code);
    hide SourceStep;
    hide Ops;
    hide Control;
    hide Reading;
    CoreParts(s, m.protos, w, k);
    k2 := k.(acts := k.acts[n := Act(act.outer, [mid] + act.chains[1..])]);
    match access {
      case Global(_) =>
        if name !in m.globals {
          StillStep(m, w, k, ch, round);
          return k;
        }
        PassingDoes(s, ch.v, round);
        hide Play;
        var t := Step(m, ch, round).0.store;
        CoreMore(s, m.protos, w, k, [ch.v], t);
        SameCore(t, m.protos, w, k, SourceStep(w, ch).0, k2);
      case _ =>
        var cell := a.Find(name).value;
        PlaceRead(w.values, s.cells, k.place, cell);
        VariableWritten(m, access, k.place[cell], ch.v, round);
        hide Play;
        var t := Step(m, ch, round).0.store;
        CoreWritten(s, m.protos, w, k, cell, ch.v, [ch.v], t);
        SameCore(t, m.protos, w.Write(cell, ch.v), k, SourceStep(w, ch).0, k2);
    }
    TopStep(m, w, k, Step(m, ch, round).0, SourceStep(w, ch).0, k2, own);
  }

  lemma GlobalStep(m: Machine, w: World, k: Link, ch: Choice, round: nat -> nat, name: string, rest: Code) returns (k2: Link)
    requires HasTask(m, w, k, Code.Declare(name, rest), true) && C.RoundsUp(round)
    ensures m.store.Sound() && Stepped(m, w, ch, round, k2)
  {
    hide Agree;
    hide CoreAgrees;
    hide ActAgrees;
    hide TaskAgrees;
    hide Room;
    hide Own;
    hide C.Store.Sound;
    hide C.LegalRun;
    hide C.Apply;
    hide ClosureAgrees;
    hide ValuesAgree;
    var code := Code.Declare(name, rest);
    TopFacts(m, w, k);
    TaskFacts(m, w, k, code, true);
    var n, s := |m.todo| - 1, m.store;
    var a, jobs, act, own, ups := w.active[n], m.todo[n], k.acts[n], Own(s, n), s.env[s.Top().closure];
    var chain := act.chains[0];
    TaskParts(code, true, jobs[0], chain, a.names, act.outer, ups);
    var r := Compile(rest, chain, true).0;
    assert TaskAgrees(rest, true, Run(r), chain, a.names, act.outer, ups) by { SameTask(code, rest, jobs[0], chain, a.names, act.outer, ups); }
    PlainFrame(a, jobs, act, own, ups, k.place, code, true, rest, Run(r), chain);
    RoomRest(NewGlobal(name, r), r, jobs[1..], |own|, |own|);
    hide Compile;
    SourceHead(w, ch, code, true);
    MachineHead(m, ch, jobs[0].code);
    hide SourceStep;
    hide Ops;
    hide Control;
    hide Reading;
    hide SetLocals;
    PassingDoes(s, ch.v, round);
    hide Play;
    k2 := k.(acts := k.acts[n := Act(act.outer, [chain] + act.chains[1..])]);
    var m2, w2 := Step(m, ch, round).0, SourceStep(w, ch).0;
    CoreMore(s, m.protos, w, k, [ch.v], m2.store);
    SameCore(m2.store, m.protos, w, k, w2, k2);
    TopStep(m, w, k, m2, w2, k2, own);
  }

  lemma SameTask(code: Code, rest: Code, job: Job, chain: seq<Level>, names: seq<string>, outer: seq<Frame>, ups: seq<nat>)
    requires code.Declare? && code.rest == rest && TaskAgrees(code, true, job, chain, names, outer, ups)
    ensures TaskAgrees(rest, true, Run(Compile(rest, chain, true).0), chain, names, outer, ups)
  {
    hide Linked;
    hide Proper;
    hide OutersSlotted;
  }

  lemma DeclareStep(m: Machine, w: World, k: Link, ch: Choice, round: nat -> nat, name: string, rest: Code) returns (k2: Link)
    requires HasTask(m, w, k, Code.Declare(name, rest), false) && C.RoundsUp(round)
    ensures m.store.Sound() && Stepped(m, w, ch, round, k2)
  {
    hide Agree;
    hide CoreAgrees;
    hide ActAgrees;
    hide TaskAgrees;
    hide Room;
    hide Own;
    hide C.Store.Sound;
    hide C.LegalRun;
    hide C.Apply;
    hide C.Legal;
    hide ClosureAgrees;
    hide ValuesAgree;
    var code := Code.Declare(name, rest);
    TopFacts(m, w, k);
    TaskFacts(m, w, k, code, false);
    var n, s := |m.todo| - 1, m.store;
    var a, jobs, act, own, ups := w.active[n], m.todo[n], k.acts[n], Own(s, n), s.env[s.Top().closure];
    var chain := act.chains[0];
    TaskParts(code, false, jobs[0], chain, a.names, act.outer, ups);
    LocalTask(code, name, rest, jobs[0], chain, a.names, act.outer, ups);
    var more := SetLocals(chain, Innermost(chain).locals + [name]);
    var r := Compile(rest, more, false).0;
    LocalFrame(a, jobs, act, own, ups, k.place, code, name, rest, Run(r), more, |s.cells|);
    RoomRest(NewLocal(r), r, jobs[1..], |own|, |own| + 1);
    hide Compile;
    SourceHead(w, ch, code, false);
    MachineHead(m, ch, jobs[0].code);
    hide SourceStep;
    hide Ops;
    hide Control;
    hide Reading;
    hide SetLocals;
    PushDoes(s, ch.v, round);
    OneOp(s, C.Op.Push(ch.v), round);
    hide Play;
    SamePlaces(s, m.protos, w, k);
    assert Fresh(|s.cells|, 1) == [|s.cells|];
    k2 := k.(place := k.place + [|s.cells|], acts := k.acts[n := Act(act.outer, [more] + act.chains[1..])]);
    var m2, w2 := Step(m, ch, round).0, SourceStep(w, ch).0;
    CoreNew(s, m.protos, w, k, [ch.v], w2, m2.store);
    SameCore(m2.store, m.protos, w2, k.(place := k2.place), w2, k2);
    assert m2.store.slots == s.slots[..s.Top().base] + (own + [|s.cells|]);
    TopStep(m, w, k, m2, w2, k2, own + [|s.cells|]);
  }

  /** Where a block stands that begins: the loop around it, or the code after it, comes next. */
  ghost predicate BlockThere(m: Machine, w: World, k: Link, code: Code, body: Code, rest: Code, top: bool) {
    && TopThere(m, w, k)
    && var s, n := m.store, |m.todo| - 1;
    && |w.active| == n + 1 == |k.acts| && m.todo[n] != [] && k.acts[n].chains != [] && k.acts[n].chains[0] != []
    && var a, jobs, act, own, ups := w.active[n], m.todo[n], k.acts[n], Own(s, n), s.env[s.Top().closure];
    && var chain := act.chains[0];
    && var (b, mid) := Compile(body, chain, false);
    && var back := SetLocals(mid, Innermost(chain).locals);
    && var r, loop := Compile(rest, back, top).0, code.Repeat?;
    && var c := if loop then Looped(b, LocalCount(body), r) else Enclosed(b, LocalCount(body), r);
    && var after, next, then_ := if loop then code else rest, if loop then c else r, if loop then chain else back;
    && var going := [Run(b), Leave(LocalCount(body)), Run(next)] + jobs[1..];
    && jobs[0] == Run(c)
    && ActAgrees(a.Next([Do(body, false), Cut(|a.names|), Do(after, top)]), going, Act(act.outer, [chain, [], then_] + act.chains[1..]), own, ups, k.place)
    && Room(going, |own|) <= Room(jobs, |own|)
  }

  lemma BlockFacts(m: Machine, w: World, k: Link, code: Code, body: Code, rest: Code, top: bool)
    requires HasTask(m, w, k, code, top)
    requires code == Code.Scope(body, rest) || code == Code.Repeat(body, rest)
    ensures BlockThere(m, w, k, code, body, rest, top)
  {
    hide Agree;
    hide CoreAgrees;
    hide ActAgrees;
    hide TaskAgrees;
    hide Room;
    hide Own;
    hide C.Store.Sound;
    TopFacts(m, w, k);
    TaskFacts(m, w, k, code, top);
    var n, s := |m.todo| - 1, m.store;
    var a, jobs, act, own, ups := w.active[n], m.todo[n], k.acts[n], Own(s, n), s.env[s.Top().closure];
    var chain := act.chains[0];
    TaskParts(code, top, jobs[0], chain, a.names, act.outer, ups);
    BlockTask(code, body, rest, top, jobs[0], chain, a.names, act.outer, ups);
    var (b, mid) := Compile(body, chain, false);
    var back := SetLocals(mid, Innermost(chain).locals);
    var r, loop := Compile(rest, back, top).0, code.Repeat?;
    GrownCounts(body, chain, false);
    var c := if loop then Looped(b, LocalCount(body), r) else Enclosed(b, LocalCount(body), r);
    assert jobs[0] == Run(c) && Compile(code, chain, top).0 == c;
    hide Compile;
    hide Linked;
    hide Proper;
    hide OutersSlotted;
    var after, next, then_ := if loop then code else rest, if loop then c else r, if loop then chain else back;
    BlockFrame(a, jobs, act, own, ups, k.place, code, top, body, Run(b), after, Run(next), then_);
    RoomBlock(c, b, LocalCount(body), r, next, jobs[1..], |own|);
  }

  /** A block begins. */
  lemma BlockStep(m: Machine, w: World, k: Link, ch: Choice, round: nat -> nat, code: Code, body: Code, rest: Code, top: bool) returns (k2: Link)
    requires HasTask(m, w, k, code, top) && C.RoundsUp(round)
    requires code == Code.Scope(body, rest) || (code == Code.Repeat(body, rest) && ch.again)
    ensures m.store.Sound() && Stepped(m, w, ch, round, k2)
  {
    hide Agree;
    hide CoreAgrees;
    hide ActAgrees;
    hide Compile;
    hide Room;
    hide Own;
    hide C.Store.Sound;
    BlockFacts(m, w, k, code, body, rest, top);
    var n, s := |m.todo| - 1, m.store;
    var a, jobs, act, own := w.active[n], m.todo[n], k.acts[n], Own(s, n);
    var chain := act.chains[0];
    var back := SetLocals(Compile(body, chain, false).1, Innermost(chain).locals);
    SourceHead(w, ch, code, top);
    MachineHead(m, ch, jobs[0].code);
    hide SourceStep;
    hide Ops;
    hide Control;
    hide Reading;
    NoOps(s, round);
    hide C.LegalRun;
    k2 := k.(acts := k.acts[n := Act(act.outer, [chain, [], if code.Repeat? then chain else back] + act.chains[1..])]);
    var m2, w2 := Step(m, ch, round).0, SourceStep(w, ch).0;
    SameCore(s, m.protos, w, k, w2, k2);
    TopStep(m, w, k, m2, w2, k2, own);
  }

  lemma LoopEndStep(m: Machine, w: World, k: Link, ch: Choice, round: nat -> nat, body: Code, rest: Code, top: bool) returns (k2: Link)
    requires HasTask(m, w, k, Code.Repeat(body, rest), top) && C.RoundsUp(round) && !ch.again
    ensures m.store.Sound() && Stepped(m, w, ch, round, k2)
  {
    hide Agree;
    hide CoreAgrees;
    hide ActAgrees;
    hide TaskAgrees;
    hide Room;
    hide Own;
    hide C.Store.Sound;
    var code := Code.Repeat(body, rest);
    TopFacts(m, w, k);
    TaskFacts(m, w, k, code, top);
    var n, s := |m.todo| - 1, m.store;
    var a, jobs, act, own, ups := w.active[n], m.todo[n], k.acts[n], Own(s, n), s.env[s.Top().closure];
    var chain := act.chains[0];
    TaskParts(code, top, jobs[0], chain, a.names, act.outer, ups);
    BlockTask(code, body, rest, top, jobs[0], chain, a.names, act.outer, ups);
    var (b, mid) := Compile(body, chain, false);
    var back := SetLocals(mid, Innermost(chain).locals);
    var r := Compile(rest, back, top).0;
    PlainFrame(a, jobs, act, own, ups, k.place, code, top, rest, Run(r), back);
    RoomRest(Looped(b, LocalCount(body), r), r, jobs[1..], |own|, |own|);
    hide Compile;
    SourceHead(w, ch, code, top);
    MachineHead(m, ch, jobs[0].code);
    hide SourceStep;
    hide Ops;
    hide Control;
    hide Reading;
    NoOps(s, round);
    hide C.LegalRun;
    k2 := k.(acts := k.acts[n := Act(act.outer, [back] + act.chains[1..])]);
    var m2, w2 := Step(m, ch, round).0, SourceStep(w, ch).0;
    SameCore(s, m.protos, w, k, w2, k2);
    TopStep(m, w, k, m2, w2, k2, own);
  }

  /** A block ends: its locals go, unless it has none. */
  lemma CutStep(m: Machine, w: World, k: Link, ch: Choice, round: nat -> nat, n: nat) returns (k2: Link)
    requires Agree(m, w, k) && C.RoundsUp(round)
    requires w.active[|w.active| - 1].todo != [] && w.active[|w.active| - 1].todo[0] == Cut(n)
    ensures m.store.Sound() && Stepped(m, w, ch, round, k2)
  {
    hide Agree;
    hide CoreAgrees;
    hide ActAgrees;
    hide TaskAgrees;
    hide Room;
    hide Own;
    hide C.Store.Sound;
    hide C.LegalRun;
    hide C.Apply;
    TopFacts(m, w, k);
    var d, s := |m.todo| - 1, m.store;
    var a, jobs, act, own, ups := w.active[d], m.todo[d], k.acts[d], Own(s, d), s.env[s.Top().closure];
    CutFrame(a, jobs, act, own, ups, k.place, n);
    var count := |a.names| - n;
    var less := own[..|own| - count];
    assert jobs == [jobs[0]] + jobs[1..] && [] + jobs[1..] == jobs[1..] && [] + a.todo[1..] == a.todo[1..];
    RoomLeave(count, jobs[1..], |own|);
    k2 := k.(acts := k.acts[d := Act(act.outer, act.chains[1..])]);
    var m2, w2 := Step(m, ch, round).0, SourceStep(w, ch).0;
    if count == 0 {
      assert less == own && C.LegalRun(s, [], round) by { NoOps(s, round); }
      SameCore(s, m.protos, w, k, w2, k2);
    } else {
      LeaveDoes(s, count, ch.v, round);
      hide Play;
      CoreMore(s, m.protos, w, k, [ch.v, ch.v], m2.store);
      SameCore(m2.store, m.protos, w, k, w2, k2);
      assert s.slots[..|s.slots| - count] == s.slots[..s.Top().base] + less;
    }
    TopStep(m, w, k, m2, w2, k2, less);
  }

  lemma NoOps(s: C.Store, round: nat -> nat)
    requires s.Sound() && C.RoundsUp(round)
    ensures C.LegalRun(s, [], round)
  {
  }

  /** Where a function literal stands: its code and its captures. */
  ghost predicate MadeThere(m: Machine, w: World, k: Link, params: seq<string>, body: Code, named: seq<Level>, own: seq<nat>)
  {
    var s, n := m.store, |m.todo| - 1;
    && s.frames != [] && s.Top().closure < |s.env| && named != []
    && var ups := s.env[s.Top().closure];
    && var mid := Compile(body, Inner(named, params), false).1;
    && forall c <- mid[|named|].upvalues :: c.index < if c.isLocal then |own| else |ups|
  }

  /** Where a function literal stands that is dropped or becomes a global. */
  ghost predicate FnThere(m: Machine, w: World, k: Link, params: seq<string>, body: Code, rest: Code, top: bool, naming: Naming)
  {
    && TopThere(m, w, k)
    && var s, n := m.store, |m.todo| - 1;
    && |w.active| == n + 1 == |k.acts| && m.todo[n] != [] && k.acts[n].chains != []
    && var a, jobs, act, own, ups := w.active[n], m.todo[n], k.acts[n], Own(s, n), s.env[s.Top().closure];
    && var chain := act.chains[0];
    && MadeThere(m, w, k, params, body, chain, own)
    && var (b, mid) := Compile(body, Inner(chain, params), false);
    && var back := mid[..|chain|];
    && var r := Compile(rest, back, top).0;
    && jobs[0] == Run(Closure(mid[|chain|].upvalues, |params|, b, naming, r))
    && ActAgrees(a.Next([Do(rest, top)]), [Run(r)] + jobs[1..], Act(act.outer, [back] + act.chains[1..]), own, ups, k.place)
    && Room([Run(r)] + jobs[1..], |own|) <= Room(jobs, |own|)
    && ClosureAgrees(Body(a.names, a.cells, params, body), ProtoOf(|params|, b),
                     CapturedCells(mid[|chain|].upvalues, own, ups), Lex(chain, act.outer + [Frame(own, ups)]), k.place)
  }

  lemma FnFacts(m: Machine, w: World, k: Link, code: Code, params: seq<string>, body: Code, rest: Code, top: bool, naming: Naming)
    requires HasTask(m, w, k, code, top)
    requires
      || (code == Code.Fn(params, body, rest) && naming == Unnamed)
      || (top && naming.AsGlobal? && code == Code.Define(naming.name, params, body, rest))
    ensures FnThere(m, w, k, params, body, rest, top, naming)
  {
    hide Agree;
    hide CoreAgrees;
    hide ActAgrees;
    hide TaskAgrees;
    hide ClosureAgrees;
    hide Room;
    hide Own;
    hide C.Store.Sound;
    hide AllNames;
    hide AllCells;
    hide Linked;
    hide Proper;
    hide OutersSlotted;
    hide CapturedCell;
    TopFacts(m, w, k);
    TaskFacts(m, w, k, code, top);
    var n, s := |m.todo| - 1, m.store;
    var a, jobs, act, own, ups := w.active[n], m.todo[n], k.acts[n], Own(s, n), s.env[s.Top().closure];
    var chain := act.chains[0];
    TaskParts(code, top, jobs[0], chain, a.names, act.outer, ups);
    ActParts(a, jobs, act, own, ups, k.place);
    var (b, mid) := Compile(body, Inner(chain, params), false);
    var back := mid[..|chain|];
    var r := Compile(rest, back, top).0;
    FunctionTask(params, body, rest, top, chain, a.names, act.outer, ups);
    Situated(chain, a.names, Moved(a.cells, k.place), act.outer, own, ups);
    MadeAgrees(params, body, chain, a, act.outer, own, ups, k.place);
    PlainFrame(a, jobs, act, own, ups, k.place, code, top, rest, Run(r), back);
    RoomRest(Closure(mid[|chain|].upvalues, |params|, b, naming, r), r, jobs[1..], |own|, |own|);
  }

  /** A function literal that is dropped, or moved to a global. */
  lemma FnStep(m: Machine, w: World, k: Link, ch: Choice, round: nat -> nat, code: Code, params: seq<string>, body: Code, rest: Code, top: bool, naming: Naming)
    returns (k2: Link)
    requires HasTask(m, w, k, code, top) && C.RoundsUp(round)
    requires
      || (code == Code.Fn(params, body, rest) && naming == Unnamed)
      || (top && naming.AsGlobal? && code == Code.Define(naming.name, params, body, rest))
    ensures m.store.Sound() && Stepped(m, w, ch, round, k2)
  {
    hide Agree;
    hide CoreAgrees;
    hide ActAgrees;
    hide ClosureAgrees;
    hide Compile;
    hide Room;
    hide Own;
    hide C.Store.Sound;
    hide C.LegalRun;
    hide C.Apply;
    hide ProtoOf;
    FnFacts(m, w, k, code, params, body, rest, top, naming);
    var n, s := |m.todo| - 1, m.store;
    var a, jobs, act, own, ups := w.active[n], m.todo[n], k.acts[n], Own(s, n), s.env[s.Top().closure];
    var chain := act.chains[0];
    var (b, mid) := Compile(body, Inner(chain, params), false);
    var captures := mid[|chain|].upvalues;
    SourceHead(w, ch, code, top);
    MachineHead(m, ch, jobs[0].code);
    hide SourceStep;
    hide Ops;
    hide Control;
    hide Reading;
    CoreParts(s, m.protos, w, k);
    SamePlaces(s, m.protos, w, k);
    hide ValuesAgree;
    var v := C.Function(|s.env|);
    PassingDoes(s, v, round);
    DropMadeDoes(s, captures, round);
    CapturesAgree(s, captures);
    assert Ops(m, ch) == [C.Op.MakeClosure(captures), C.Op.Pop];
    hide Play;
    k2 := k.(acts := k.acts[n := Act(act.outer, [mid[..|chain|]] + act.chains[1..])],
             lex := k.lex + [Lex(chain, act.outer + [Frame(own, ups)])]);
    var m2, w2 := Step(m, ch, round).0, SourceStep(w, ch).0;
    var t := s.(cells := s.cells + [v]);
    CoreMore(s, m.protos, w, k, [v], t);
    var made := Body(a.names, a.cells, params, body);
    CoreClosure(t, m.protos, w, k, made, ProtoOf(|params|, b), k2.lex[|k.lex|], m2.store, w.(closures := w.closures + [made]));
    SameCore(m2.store, m2.protos, w.(closures := w.closures + [made]), k.(lex := k2.lex), w2, k2);
    TopStep(m, w, k, m2, w2, k2, own);
  }

  /** Where the definition of a local function stands: the new local and its slot are known
      to its own body. */
  ghost predicate DefineThere(m: Machine, w: World, k: Link, name: string, params: seq<string>, body: Code, rest: Code)
  {
    && TopThere(m, w, k)
    && var s, n := m.store, |m.todo| - 1;
    && |w.active| == n + 1 == |k.acts| && m.todo[n] != [] && k.acts[n].chains != [] && k.acts[n].chains[0] != []
    && var a, jobs, act, ups := w.active[n], m.todo[n], k.acts[n], s.env[s.Top().closure];
    && var chain, own, place := act.chains[0], Own(s, n) + [|s.cells|], k.place + [|s.cells|];
    && var named := SetLocals(chain, Innermost(chain).locals + [name]);
    && MadeThere(m, w, k, params, body, named, own)
    && var (b, mid) := Compile(body, Inner(named, params), false);
    && var back := mid[..|named|];
    && var r := Compile(rest, back, false).0;
    && var names, cells := a.names + [name], a.cells + [|k.place|];
    && jobs[0] == Run(Closure(mid[|named|].upvalues, |params|, b, AsLocal, r))
    && ActAgrees(Activation(names, cells, [Do(rest, false)] + a.todo[1..]), [Run(r)] + jobs[1..],
                 Act(act.outer, [back] + act.chains[1..]), own, ups, place)
    && Room([Run(r)] + jobs[1..], |own|) <= Room(jobs, |own| - 1)
    && ClosureAgrees(Body(names, cells, params, body), ProtoOf(|params|, b),
                     CapturedCells(mid[|named|].upvalues, own, ups), Lex(named, act.outer + [Frame(own, ups)]), place)
  }

  lemma DefineFacts(m: Machine, w: World, k: Link, name: string, params: seq<string>, body: Code, rest: Code)
    requires HasTask(m, w, k, Code.Define(name, params, body, rest), false)
    ensures DefineThere(m, w, k, name, params, body, rest)
  {
    hide Agree;
    hide CoreAgrees;
    hide ActAgrees;
    hide TaskAgrees;
    hide ClosureAgrees;
    hide Room;
    hide Own;
    hide C.Store.Sound;
    hide AllNames;
    hide AllCells;
    hide Linked;
    hide Proper;
    hide OutersSlotted;
    hide CapturedCell;
    hide SetLocals;
    var code := Code.Define(name, params, body, rest);
    TopFacts(m, w, k);
    TaskFacts(m, w, k, code, false);
    var n, s := |m.todo| - 1, m.store;
    var a, jobs, act, was, ups := w.active[n], m.todo[n], k.acts[n], Own(s, n), s.env[s.Top().closure];
    var chain, own, place := act.chains[0], was + [|s.cells|], k.place + [|s.cells|];
    TaskParts(code, false, jobs[0], chain, a.names, act.outer, ups);
    ActParts(a, jobs, act, was, ups, k.place);
    assert chain != [];
    var named := SetLocals(chain, Innermost(chain).locals + [name]);
    LocalsKeep(chain, Innermost(chain).locals + [name]);
    MoreNames(chain, a.names, act.outer, name);
    assert |named| == |chain| by { OutersCount(named, act.outer); }
    var (b, mid) := Compile(body, Inner(named, params), false);
    var back := mid[..|named|];
    var r := Compile(rest, back, false).0;
    FunctionTask(params, body, rest, false, named, a.names + [name], act.outer, ups);
    LocalFrame(a, jobs, act, was, ups, k.place, code, name, rest, Run(r), back, |s.cells|);
    var wider := Activation(a.names + [name], a.cells + [|k.place|], [Do(rest, false)] + a.todo[1..]);
    ActParts(wider, [Run(r)] + jobs[1..], Act(act.outer, [back] + act.chains[1..]), own, ups, place);
    Situated(named, wider.names, Moved(wider.cells, place), act.outer, own, ups);
    MadeAgrees(params, body, named, wider, act.outer, own, ups, place);
    RoomRest(Closure(mid[|named|].upvalues, |params|, b, AsLocal, r), r, jobs[1..], |was|, |own|);
  }

  lemma DefineStep(m: Machine, w: World, k: Link, ch: Choice, round: nat -> nat, name: string, params: seq<string>, body: Code, rest: Code)
    returns (k2: Link)
    requires HasTask(m, w, k, Code.Define(name, params, body, rest), false) && C.RoundsUp(round)
    ensures m.store.Sound() && Stepped(m, w, ch, round, k2)
  {
    hide Agree;
    hide CoreAgrees;
    hide ActAgrees;
    hide ClosureAgrees;
    hide Compile;
    hide Room;
    hide Own;
    hide C.Store.Sound;
    hide C.LegalRun;
    hide C.Apply;
    hide C.Legal;
    hide ProtoOf;
    DefineFacts(m, w, k, name, params, body, rest);
    var n, s := |m.todo| - 1, m.store;
    var a, jobs, act, was, ups := w.active[n], m.todo[n], k.acts[n], Own(s, n), s.env[s.Top().closure];
    var chain, own, place := act.chains[0], was + [|s.cells|], k.place + [|s.cells|];
    var named := SetLocals(chain, Innermost(chain).locals + [name]);
    var (b, mid) := Compile(body, Inner(named, params), false);
    var captures := mid[|named|].upvalues;
    SourceHead(w, ch, Code.Define(name, params, body, rest), false);
    MachineHead(m, ch, jobs[0].code);
    hide SourceStep;
    hide Ops;
    hide Control;
    hide Reading;
    CoreParts(s, m.protos, w, k);
    SamePlaces(s, m.protos, w, k);
    hide ValuesAgree;
    var v := C.Function(|s.env|);
    var t := s.Push(v);
    PushDoes(s, v, round);
    MakeDoes(s, captures, round);
    OneOp(s, C.Op.MakeClosure(captures), round);
    assert t.slots[t.Top().base..] == own;
    CapturesAgree(t, captures);
    assert Ops(m, ch) == [C.Op.MakeClosure(captures)];
    hide Play;
    assert Fresh(|s.cells|, 1) == [|s.cells|];
    k2 := Link(place, k.lex + [Lex(named, act.outer + [Frame(own, ups)])],
               k.acts[n := Act(act.outer, [mid[..|chain|]] + act.chains[1..])]);
    var m2, w2 := Step(m, ch, round).0, SourceStep(w, ch).0;
    var one := w.(values := w.values + [v]);
    CoreNew(s, m.protos, w, k, [v], one, t);
    var made := Body(a.names + [name], a.cells + [|w.values|], params, body);
    CoreClosure(t, m.protos, one, k.(place := place), made, ProtoOf(|params|, b), k2.lex[|k.lex|], m2.store, one.(closures := w.closures + [made]));
    SameCore(m2.store, m2.protos, one.(closures := w.closures + [made]), k.(place := place, lex := k2.lex), w2, k2);
    assert m2.store.slots == s.slots[..s.Top().base] + own;
    TopStep(m, w, k, m2, w2, k2, own);
  }

  // ----- calls and returns -----

  lemma FreshMoved(place: seq<nat>, next: nat, n: nat)
    ensures Known(Fresh(|place|, n), place + Fresh(next, n)) && Moved(Fresh(|place|, n), place + Fresh(next, n)) == Fresh(next, n)
  {
  }

  /** The frame of a called closure. */
  lemma CalleeFrame(b: Body, p: Proto, env: seq<nat>, x: Lex, place: seq<nat>, next: nat)
    requires ClosureAgrees(b, p, env, x, place)
    ensures
      var n := 1 + |b.params|;
      ActAgrees(Activation(b.names + ([""] + b.params), b.cells + Fresh(|place|, n), [Do(b.code, false)]), [Run(p.code)],
                Act(x.frames, [Inner(x.chain, b.params)]), Fresh(next, n), env, place + Fresh(next, n))
  {
    var n := 1 + |b.params|;
    var names := b.names + ([""] + b.params);
    var inner := Inner(x.chain, b.params);
    CalleeTask(b, p, env, x, place);
    assert |b.names| == |b.cells| && Known(b.cells, place) && Moved(b.cells, place) == AllCells(x.frames);
    hide ClosureAgrees;
    hide TaskAgrees;
    hide AllCells;
    hide Known;
    hide Moved;
    MovedMore(b.cells, place, place + Fresh(next, n));
    FreshMoved(place, next, n);
    MovedJoin(b.cells, Fresh(|place|, n), place + Fresh(next, n));
    ThenTask(b.code, false, Run(p.code), inner, [], [], [], names, x.frames, env);
    assert [Do(b.code, false)] + [] == [Do(b.code, false)] && [Run(p.code)] + [] == [Run(p.code)] && [inner] + [] == [inner];
  }

  /** One more frame on top. */
  lemma Entering(m: Machine, w: World, k: Link, m2: Machine, w2: World, k2: Link)
    requires Agree(m, w, k) && CoreAgrees(m2.store, m2.protos, w2, k2) && m2.globals == w2.globals
    requires |m2.store.frames| == |m.store.frames| + 1 && m2.store.frames[..|m.store.frames|] == m.store.frames
    requires m2.store.Top().base == |m.store.slots| < |m2.store.slots| && m2.store.slots[..|m.store.slots|] == m.store.slots
    requires m.store.capacity <= m2.store.capacity && m.store.env <= m2.store.env && k.place <= k2.place
    requires |w2.active| == |w.active| + 1 && |m2.todo| == |m.todo| + 1 && |k2.acts| == |k.acts| + 1
    requires
      var n := |m.todo| - 1;
      && w2.active[..n] == w.active[..n] && m2.todo[..n] == m.todo[..n] && k2.acts[..n] == k.acts[..n]
      && FrameAgrees(m.store, w2.active[n], m2.todo[n], k2.acts[n], k.place, n)
      && FrameAgrees(m2.store, w2.active[n + 1], m2.todo[n + 1], k2.acts[n + 1], k2.place, n + 1)
    ensures Agree(m2, w2, k2)
  {
    hide FrameAgrees;
    hide Own;
    assert m.store.Sound() && m2.store.Sound();
    hide CoreAgrees;
    var n := |m.todo| - 1;
    forall i | 0 <= i < |m2.todo| ensures FrameAgrees(m2.store, w2.active[i], m2.todo[i], k2.acts[i], k2.place, i) {
      if i <= n {
        if i < n { assert w2.active[i] == w2.active[..n][i] && m2.todo[i] == m2.todo[..n][i] && k2.acts[i] == k2.acts[..n][i]; }
        assert m2.store.frames[i] == m2.store.frames[..n + 1][i];
        OwnInside(m.store, m2.store, i);
        FrameKept(m.store, m2.store, w2.active[i], m2.todo[i], k2.acts[i], k.place, k2.place, i);
      }
    }
  }

  lemma OwnInside(s: C.Store, t: C.Store, i: nat)
    requires s.Sound() && t.Sound() && i < |s.frames| && |t.frames| == |s.frames| + 1 && t.frames[..|s.frames|] == s.frames
    requires t.Top().base == |s.slots| <= |t.slots| && t.slots[..|s.slots|] == s.slots
    ensures Own(t, i) == Own(s, i)
  {
    OwnSlots(s, i);
    OwnSlots(t, i);
    hide C.Store.Sound;
    var end := if i + 1 < |s.frames| then s.frames[i + 1].base else |s.slots|;
    assert t.frames[i] == t.frames[..|s.frames|][i];
    if i + 1 < |s.frames| { assert t.frames[i + 1] == t.frames[..|s.frames|][i + 1]; }
    assert s.slots[..|s.slots|] == s.slots;
    SamePrefix(s.slots, t.slots, |s.slots|, s.frames[i].base, end);
  }

  /** Where a call stands. */
  ghost predicate CallThere(m: Machine, w: World, k: Link, argc: nat, rest: Code, top: bool)
  {
    && TopThere(m, w, k)
    && var s, n := m.store, |m.todo| - 1;
    && |w.active| == n + 1 == |k.acts| && m.todo[n] != [] && k.acts[n].chains != [] && k.acts[n].chains[0] != []
    && var a, jobs, act, own, ups := w.active[n], m.todo[n], k.acts[n], Own(s, n), s.env[s.Top().closure];
    && var chain := act.chains[0];
    && var r := Compile(rest, chain, top).0;
    && jobs[0] == Run(Invoke(argc, r)) && |s.slots| + 1 + argc < s.capacity
    && ActAgrees(a.Next([Do(rest, top)]), [Run(r)] + jobs[1..], Act(act.outer, [chain] + act.chains[1..]), own, ups, k.place)
    && Room([Run(r)] + jobs[1..], |own|) <= Room(jobs, |own|)
  }

  lemma CallFacts(m: Machine, w: World, k: Link, argc: nat, rest: Code, top: bool)
    requires HasTask(m, w, k, Code.Call(argc, rest), top)
    ensures CallThere(m, w, k, argc, rest, top)
  {
    hide Agree;
    hide CoreAgrees;
    hide ActAgrees;
    hide TaskAgrees;
    hide Room;
    hide Own;
    hide C.Store.Sound;
    hide AllNames;
    hide AllCells;
    hide Linked;
    hide Proper;
    hide OutersSlotted;
    var code := Code.Call(argc, rest);
    TopFacts(m, w, k);
    TaskFacts(m, w, k, code, top);
    var n, s := |m.todo| - 1, m.store;
    var a, jobs, act, own, ups := w.active[n], m.todo[n], k.acts[n], Own(s, n), s.env[s.Top().closure];
    var chain := act.chains[0];
    TaskParts(code, top, jobs[0], chain, a.names, act.outer, ups);
    var r := Compile(rest, chain, top).0;
    assert TaskAgrees(rest, top, Run(r), chain, a.names, act.outer, ups) by { CallTask(code, rest, top, jobs[0], chain, a.names, act.outer, ups); }
    PlainFrame(a, jobs, act, own, ups, k.place, code, top, rest, Run(r), chain);
    RoomRest(Invoke(argc, r), r, jobs[1..], |own|, |own|);
    RoomRun(Invoke(argc, r), jobs[1..], |own|);
  }

  lemma CallTask(code: Code, rest: Code, top: bool, job: Job, chain: seq<Level>, names: seq<string>, outer: seq<Frame>, ups: seq<nat>)
    requires code.Call? && code.rest == rest && TaskAgrees(code, top, job, chain, names, outer, ups)
    ensures TaskAgrees(rest, top, Run(Compile(rest, chain, top).0), chain, names, outer, ups)
  {
    hide Linked;
    hide Proper;
    hide OutersSlotted;
  }

  /** The frames after a call. */
  lemma Called(m: Machine, w: World, k: Link, argc: nat, rest: Code, top: bool, c: nat, t: C.Store, vs: seq<C.Value>, w2: World, r: Compiled)
    returns (k2: Link)
    requires m.todo != [] && m.todo[|m.todo| - 1] != [] && |w.active| == |m.todo| && 0 < c < |w.closures| && |w.closures| == |m.protos|
    requires |w.closures[c].params| == argc && |vs| == 1 + argc
    requires
      var s := m.store;
      && t.cells == s.cells + vs && t.slots == s.slots + Fresh(|s.cells|, 1 + argc) && t.env == s.env
      && t.frames == s.frames + [C.Frame(c, |s.slots|)] && s.capacity <= t.capacity
      && |s.slots| + 1 + argc + m.protos[c].maxSlots <= t.capacity
    requires
      var n := |m.todo| - 1;
      var b := w.closures[c];
      var callee := Activation(b.names + ([""] + b.params), b.cells + Fresh(|w.values|, 1 + argc), [Do(b.code, false)]);
      w2 == w.(active := w.active[n := w.active[n].Next([Do(rest, top)])] + [callee], values := w.values + vs)
    requires var n := |m.todo| - 1; n < |k.acts| && k.acts[n].chains != [] && k.acts[n].chains[0] != [] && r == Compile(rest, k.acts[n].chains[0], top).0
    requires t.Sound() && Agree(m, w, k) && CallThere(m, w, k, argc, rest, top)
    ensures Agree(m.(store := t, todo := Instead(m.todo, [Run(r)]) + [[Run(m.protos[c].code)]]), w2, k2)
  {
    hide Agree;
    hide CoreAgrees;
    hide ActAgrees;
    hide Compile;
    hide Room;
    hide Own;
    hide C.Store.Sound;
    hide Inner;
    var n, s := |m.todo| - 1, m.store;
    var a, jobs, act, own, ups := w.active[n], m.todo[n], k.acts[n], Own(s, n), s.env[s.Top().closure];
    var chain := act.chains[0];
    CoreParts(s, m.protos, w, k);
    var b, p, x := w.closures[c], m.protos[c], k.lex[c];
    assert ClosureAgrees(b, p, s.env[c], x, k.place);
    CalleeFrame(b, p, s.env[c], x, k.place, |s.cells|);
    Reserved(b, p, s.env[c], x, k.place);
    hide ClosureAgrees;
    var inner := Act(x.frames, [Inner(x.chain, b.params)]);
    k2 := Link(k.place + Fresh(|s.cells|, 1 + argc), k.lex, k.acts[n := Act(act.outer, [chain] + act.chains[1..])] + [inner]);
    var m2 := m.(store := t, todo := Instead(m.todo, [Run(r)]) + [[Run(p.code)]]);
    var one := w.(values := w.values + vs);
    CoreNew(s, m.protos, w, k, vs, one, t);
    SameCore(t, m.protos, one, k.(place := k2.place), w2, k2);
    OwnSlots(t, n + 1);
    assert t.slots[|s.slots|..|t.slots|] == Fresh(|s.cells|, 1 + argc);
    assert t.frames[n + 1] == C.Frame(c, |s.slots|) && Own(t, n + 1) == Fresh(|s.cells|, 1 + argc);
    assert FrameAgrees(s, a.Next([Do(rest, top)]), [Run(r)] + jobs[1..], Act(act.outer, [chain] + act.chains[1..]), k.place, n);
    assert FrameAgrees(t, w2.active[n + 1], [Run(p.code)], inner, k2.place, n + 1);
    hide FrameAgrees;
    Entering(m, w, k, m2, w2, k2);
  }

  lemma Reserved(b: Body, p: Proto, env: seq<nat>, x: Lex, place: seq<nat>)
    requires ClosureAgrees(b, p, env, x, place)
    ensures p.arity == |b.params| && p.maxSlots == Room([Run(p.code)], 1 + |b.params|)
  {
    hide Compile;
    hide Room;
  }

  lemma CallStep(m: Machine, w: World, k: Link, ch: Choice, round: nat -> nat, argc: nat, rest: Code, top: bool) returns (k2: Link)
    requires HasTask(m, w, k, Code.Call(argc, rest), top) && C.RoundsUp(round)
    ensures m.store.Sound() && Stepped(m, w, ch, round, k2)
  {
    hide Agree;
    hide CoreAgrees;
    hide ActAgrees;
    hide ClosureAgrees;
    hide Compile;
    hide Room;
    hide Own;
    hide C.Store.Sound;
    hide C.LegalRun;
    hide C.Apply;
    CallFacts(m, w, k, argc, rest, top);
    CoreParts(m.store, m.protos, w, k);
    if 0 < ch.closure < |w.closures| {
      var c := ch.closure;
      Reserved(w.closures[c], m.protos[c], m.store.env[c], k.lex[c], k.place);
    }
    if !Callable(m, argc, ch) {
      StillStep(m, w, k, ch, round);
      return k;
    }
    var vs := [C.Function(ch.closure)] + ch.args;
    var t := CallDoes(m.store, ch.closure, ch.args, m.protos[ch.closure].maxSlots, round);
    hide Play;
    var r := m.todo[|m.todo| - 1][0].code.rest;
    k2 := Called(m, w, k, argc, rest, top, ch.closure, t, vs, SourceStep(w, ch).0, r);
  }

  lemma OwnLeft(s: C.Store, t: C.Store, i: nat)
    requires s.Sound() && t.Sound() && i + 1 < |s.frames| && t.frames == s.frames[..|s.frames| - 1] && t.slots == s.slots[..s.Top().base]
    ensures Own(t, i) == Own(s, i)
  {
    OwnSlots(s, i);
    OwnSlots(t, i);
    C.BaseBelowTop(s, i + 2);
    hide C.Store.Sound;
    var base := s.Top().base;
    assert t.slots[..base] == s.slots[..base];
    SamePrefix(s.slots, t.slots, base, s.frames[i].base, s.frames[i + 1].base);
  }

  /** Without the frame on top. */
  lemma Leaving(m: Machine, w: World, k: Link, t: C.Store)
    requires Agree(m, w, k) && |m.todo| > 1 && CoreAgrees(t, m.protos, w, k)
    requires t.frames == m.store.frames[..|m.store.frames| - 1] && t.slots == m.store.slots[..m.store.Top().base]
    requires t.env == m.store.env && t.capacity == m.store.capacity
    ensures
      var n := |m.todo| - 1;
      Agree(m.(store := t, todo := m.todo[..n]), w.(active := w.active[..n]), k.(acts := k.acts[..n]))
  {
    hide FrameAgrees;
    hide Own;
    var n := |m.todo| - 1;
    assert m.store.Sound() && t.Sound();
    SameCore(t, m.protos, w, k, w.(active := w.active[..n]), k.(acts := k.acts[..n]));
    hide CoreAgrees;
    forall i | 0 <= i < n ensures FrameAgrees(t, w.active[..n][i], m.todo[..n][i], k.acts[..n][i], k.place, i) {
      OwnLeft(m.store, t, i);
      FrameKept(m.store, t, w.active[i], m.todo[i], k.acts[i], k.place, k.place, i);
    }
  }

  /** A function returns; the end of the script ends the run. */
  lemma ReturnStep(m: Machine, w: World, k: Link, ch: Choice, round: nat -> nat) returns (k2: Link)
    requires Agree(m, w, k) && C.RoundsUp(round) && w.active[|w.active| - 1].todo == []
    ensures m.store.Sound() && Stepped(m, w, ch, round, k2)
  {
    hide CoreAgrees;
    hide ActAgrees;
    hide FrameAgrees;
    hide Room;
    hide Own;
    hide C.Store.Sound;
    hide C.LegalRun;
    hide C.Apply;
    TopFacts(m, w, k);
    var n, s := |m.todo| - 1, m.store;
    ActParts(w.active[n], m.todo[n], k.acts[n], Own(s, n), s.env[s.Top().closure], k.place);
    if n == 0 {
      StillStep(m, w, k, ch, round);
      return k;
    }
    ReturnDoes(s, ch.v, round);
    hide Play;
    var t := Step(m, ch, round).0.store;
    CoreMore(s, m.protos, w, k, [ch.v, ch.v], t);
    Leaving(m, w, k, t);
    k2 := k.(acts := k.acts[..n]);
  }

  // ----- runs -----

  /** What lexical scoping reads, the machine reads, whatever comes next. */
  lemma CompiledReaches(m: Machine, w: World, k: Link, ch: Choice, round: nat -> nat) returns (k2: Link)
    requires Agree(m, w, k) && C.RoundsUp(round)
    ensures m.store.Sound() && Stepped(m, w, ch, round, k2)
  {
    hide CoreAgrees;
    hide FrameAgrees;
    hide Stepped;
    hide C.Store.Sound;
    var a := w.active[|w.active| - 1];
    if a.todo == [] {
      k2 := ReturnStep(m, w, k, ch, round);
      return;
    }
    match a.todo[0]
    case Cut(n) => k2 := CutStep(m, w, k, ch, round, n);
    case Do(code, top) =>
      match code
      case End => k2 := EndStep(m, w, k, ch, round, top);
      case Declare(name, rest) =>
        if top { k2 := GlobalStep(m, w, k, ch, round, name, rest); } else { k2 := DeclareStep(m, w, k, ch, round, name, rest); }
      case Use(name, rest) => k2 := UseStep(m, w, k, ch, round, name, rest, top);
      case Assign(name, rest) => k2 := AssignStep(m, w, k, ch, round, name, rest, top);
      case Scope(body, rest) => k2 := BlockStep(m, w, k, ch, round, code, body, rest, top);
      case Repeat(body, rest) =>
        if ch.again { k2 := BlockStep(m, w, k, ch, round, code, body, rest, top); }
        else { k2 := LoopEndStep(m, w, k, ch, round, body, rest, top); }
      case Fn(params, body, rest) => k2 := FnStep(m, w, k, ch, round, code, params, body, rest, top, Unnamed);
      case Define(name, params, body, rest) =>
        if top { k2 := FnStep(m, w, k, ch, round, code, params, body, rest, top, AsGlobal(name)); }
        else { k2 := DefineStep(m, w, k, ch, round, name, params, body, rest); }
      case Call(argc, rest) => k2 := CallStep(m, w, k, ch, round, argc, rest, top);
  }

  lemma {:induction false} RunReaches(m: Machine, w: World, k: Link, choices: seq<Choice>, round: nat -> nat)
    requires Agree(m, w, k) && C.RoundsUp(round)
    ensures
      var (end, read, ops) := MachineRun(m, choices, round);
      && m.store.Sound() && C.LegalRun(m.store, ops, round)
      && end.store == Play(m.store, ops, round) && end.store.Sound()
      && read == SourceRun(w, choices).1 && end.globals == SourceRun(w, choices).0.globals
    decreases |choices|
  {
    hide FrameAgrees;
    hide ClosureAgrees;
    hide C.Apply;
    hide C.Legal;
    if choices == [] {
      NoOps(m.store, round);
    } else {
      var k2 := CompiledReaches(m, w, k, choices[0], round);
      var next := Step(m, choices[0], round).0;
      RunReaches(next, SourceStep(w, choices[0]).0, k2, choices[1..], round);
      RunOn(m.store, Ops(m, choices[0]), MachineRun(next, choices[1..], round).2, round);
    }
  }

  /** What the compiler knows of a script at its start: the slot of the script itself. */
  const SCRIPT := [Level([""], [])]

  function Loaded(code: Code, globals: map<string, C.Value>, capacity: nat): Machine {
    var c := Compile(code, SCRIPT, true).0;
    Machine(C.Store([C.Function(0)], [0], [C.Frame(0, 0)], [[]], capacity), [ProtoOf(0, c)], [[Run(c)]], globals)
  }

  /** A script before its first step; `globals` holds what is defined from the start. */
  function Beginning(code: Code, globals: map<string, C.Value>): World {
    World([C.Function(0)], [Body([], [], [], code)], [Activation([""], [0], [Do(code, true)])], globals)
  }

  lemma ScriptTask(code: Code)
    ensures TaskAgrees(code, true, Run(Compile(code, SCRIPT, true).0), SCRIPT, [""], [], [])
  {
    assert SCRIPT[..0] == [] && Proper(SCRIPT);
    CompileKeeps(code, SCRIPT, true);
    assert [] + [Frame([], [])] == [Frame([], [])];
  }

  lemma StartFrame(code: Code, s: C.Store)
    requires s == C.Store([C.Function(0)], [0], [C.Frame(0, 0)], [[]], s.capacity) && s.Sound()
    requires Room([Run(Compile(code, SCRIPT, true).0)], 1) <= s.capacity
    ensures FrameAgrees(s, Activation([""], [0], [Do(code, true)]), [Run(Compile(code, SCRIPT, true).0)], Act([], [SCRIPT]), [0], 0)
  {
    hide Compile;
    hide Room;
    hide TaskAgrees;
    hide C.Store.Sound;
    var c := Compile(code, SCRIPT, true).0;
    ScriptTask(code);
    ThenTask(code, true, Run(c), SCRIPT, [], [], [], [""], [], []);
    assert [Do(code, true)] + [] == [Do(code, true)] && [Run(c)] + [] == [Run(c)] && [SCRIPT] + [] == [SCRIPT];
    hide TasksAgree;
    assert Own(s, 0) == [0] && Moved([0], [0]) == AllCells([]) + [0];
  }

  lemma Starts(code: Code, globals: map<string, C.Value>, capacity: nat)
    requires Room([Run(Compile(code, SCRIPT, true).0)], 1) <= capacity
    ensures Agree(Loaded(code, globals, capacity), Beginning(code, globals), Link([0], [Lex([], [])], [Act([], [SCRIPT])]))
  {
    hide Compile;
    hide Room;
    hide ClosureAgrees;
    var s := Loaded(code, globals, capacity).store;
    assert s.Sound() && ValuesAgree([C.Function(0)], s.cells, [0]);
    hide C.Store.Sound;
    hide ValuesAgree;
    StartFrame(code, s);
    hide FrameAgrees;
  }

  /** Every run of a script: the machine with its captured variables, compiled with the
      captures that resolution gives, makes only legal operations and reads what lexical
      scoping reads. */
  lemma ScriptReaches(code: Code, globals: map<string, C.Value>, capacity: nat, choices: seq<Choice>, round: nat -> nat)
    requires C.RoundsUp(round) && Room([Run(Compile(code, SCRIPT, true).0)], 1) <= capacity
    ensures
      var m := Loaded(code, globals, capacity);
      var (end, read, ops) := MachineRun(m, choices, round);
      && m.store.Sound() && C.LegalRun(m.store, ops, round) && end.store == C.ApplyAll(m.store, ops, round)
      && read == SourceRun(Beginning(code, globals), choices).1
      && end.globals == SourceRun(Beginning(code, globals), choices).0.globals
  {
    hide Compile;
    hide Room;
    Starts(code, globals, capacity);
    var m := Loaded(code, globals, capacity);
    RunReaches(m, Beginning(code, globals), Link([0], [Lex([], [])], [Act([], [SCRIPT])]), choices, round);
    PlayIsRun(m.store, MachineRun(m, choices, round).2, round);
  }

  // ----- nothing stops early -----

  /** A visible name is always read, a global if it is defined. */
  lemma UseGoesOn(w: World, ch: Choice, a: Activation, name: string, rest: Code, top: bool)
    requires w.active != [] && a == w.active[|w.active| - 1] && a.todo != [] && a.todo[0] == Do(Code.Use(name, rest), top)
    requires |a.names| == |a.cells| && (name in a.names || name in w.globals)
    ensures |SourceStep(w, ch).1| == 1 && SourceStep(w, ch).0 == w.With(a.Next([Do(rest, top)]))
  {
    SourceHead(w, ch, Code.Use(name, rest), top);
    hide SourceStep;
    var i := Syntax.LastIndex(a.names, name);
    if name in a.names { assert i >= 0 by { NameIndexed(a.names, name); } }
  }

  lemma NameIndexed(names: seq<string>, name: string)
    requires name in names
    ensures Syntax.LastIndex(names, name) >= 0
  {
  }

  /** A call of a closure with as many arguments as parameters always enters its body, and
      when the body has nothing left to do the caller goes on. */
  lemma CallGoesOn(w: World, ch: Choice, a: Activation, argc: nat, rest: Code, top: bool)
    requires w.active != [] && a == w.active[|w.active| - 1] && a.todo != [] && a.todo[0] == Do(Code.Call(argc, rest), top)
    requires 0 < ch.closure < |w.closures| && |w.closures[ch.closure].params| == argc && |ch.args| == argc
    ensures
      var b, after := w.closures[ch.closure], SourceStep(w, ch).0;
      && |after.active| == |w.active| + 1 && after.active[|w.active|].todo == [Do(b.code, false)]
      && after.active[|w.active|].names == b.names + [""] + b.params && after.active[|w.active| - 1] == a.Next([Do(rest, top)])
      && after.values == w.values + [C.Function(ch.closure)] + ch.args
  {
    SourceHead(w, ch, Code.Call(argc, rest), top);
    hide SourceStep;
  }

  // ----- on the machine with upvalues -----

  /** Makes operations, and takes what the first one leaves on the stack. */
  method Perform(vm: Upvalues.VM, ops: seq<C.Op>) returns (first: C.Value)
    requires vm.Valid() && vm.store.Sound() && C.LegalRun(vm.store, ops, vm.round)
    modifies vm, vm.stack, vm.upvalues
    ensures vm.Valid() && vm.store == Play(old(vm.store), ops, vm.round)
    ensures ops != [] ==> old(vm.store).frames != [] && first == C.Apply(old(vm.store), ops[0], vm.round).Peek(0)
    ensures vm.stack == old(vm.stack) || fresh(vm.stack)
    ensures old(vm.upvalues) <= vm.upvalues && fresh(vm.upvalues - old(vm.upvalues))
  {
    hide C.Apply;
    hide C.Legal;
    PlayIsRun(vm.store, ops, vm.round);
    if ops == [] {
      return C.Data(0);
    }
    C.StaysSound(vm.store, ops[0], vm.round);
    vm.Execute(ops[0]);
    vm.HasFrame(vm.store);
    vm.StackSize();
    vm.PeekReads(0);
    first := vm.Peek(0);
    PlayIsRun(vm.store, ops[1..], vm.round);
    vm.Run(ops[1..]);
  }

  /** Control does not look at variables. */
  lemma ControlApart(m: Machine, s: C.Store, ch: Choice)
    ensures Ops(m, ch) == Ops(m.(store := s), ch) && Control(m, ch).(store := s) == Control(m.(store := s), ch)
    ensures Reading(m) == Reading(m.(store := s))
  {
    hide CodeOps;
    hide CodeControl;
    if m.todo != [] && m.todo[|m.todo| - 1] != [] && m.todo[|m.todo| - 1][0].Run? {
      CodeApart(m, s, m.todo[|m.todo| - 1][0].code, ch);
    }
  }

  lemma CodeApart(m: Machine, s: C.Store, code: Compiled, ch: Choice)
    requires m.todo != [] && m.todo[|m.todo| - 1] != []
    ensures CodeOps(m, code, ch) == CodeOps(m.(store := s), code, ch)
    ensures CodeControl(m, code, ch).(store := s) == CodeControl(m.(store := s), code, ch)
  {
    hide ProtoOf;
    hide Pushes;
    hide Passing;
  }

  /** Runs a script on the machine whose upvalues point into its stack: it reads what
      lexical scoping reads. */
  method RunScript(code: Code, globals: map<string, C.Value>, choices: seq<Choice>, round: nat -> nat) returns (read: seq<C.Value>)
    requires C.RoundsUp(round)
    ensures read == SourceRun(Beginning(code, globals), choices).1
  {
    hide Agree;
    hide SourceStep;
    hide Room;
    hide Compile;
    hide Play;
    hide C.LegalRun;
    hide C.Apply;
    hide C.Store.Sound;
    hide Upvalues.VM.Valid;
    hide Control;
    hide Ops;
    var slots := ProtoOf(0, Compile(code, SCRIPT, true).0).maxSlots;
    var vm := new Upvalues.VM(slots, round);
    var m := Loaded(code, globals, slots);
    ghost var w, k := Beginning(code, globals), Link([0], [Lex([], [])], [Act([], [SCRIPT])]);
    Starts(code, globals, slots);
    read := [];
    for i := 0 to |choices|
      invariant fresh(vm) && fresh(vm.stack) && fresh(vm.upvalues) && vm.Valid() && vm.round == round
      invariant Agree(m.(store := vm.store), w, k)
      invariant read + SourceRun(w, choices[i..]).1 == SourceRun(Beginning(code, globals), choices).1
    {
      var ch := choices[i];
      assert choices[i..][0] == ch && choices[i..][1..] == choices[i + 1..];
      k := CompiledReaches(m.(store := vm.store), w, k, ch, round);
      ControlApart(m, vm.store, ch);
      var ops := Ops(m, ch);
      var first := Perform(vm, ops);
      if Reading(m) && ops != [] {
        read := read + [first];
      }
      m := Control(m, ch);
      w := SourceStep(w, ch).0;
    }
    assert choices[|choices|..] == [];
  }
}
