/** What variables mean: every stack slot is a variable with a cell of its own, and a
    closure shares the cells of the variables it captures. */
module Cells {
  import opened Bytecode

  /** A closure value is its place in the order of allocation. */
  datatype Value = Data(i: int) | Function(closure: nat)

  datatype Frame = Frame(closure: nat, base: nat)

  ghost predicate CapturedIn(env: seq<seq<nat>>, cell: nat) {
    exists c, k :: 0 <= c < |env| && 0 <= k < |env[c]| && env[c][k] == cell
  }

  /** `slots` holds the cell of each stack slot, `env` the cells each closure captured.
      `capacity` is how many slots are reserved. */
  datatype Store = Store(
    cells: seq<Value>, slots: seq<nat>, frames: seq<Frame>, env: seq<seq<nat>>, capacity: nat)
  {
    /** Cells are handed out in order, so a slot higher up has a later cell. */
    ghost predicate Sound() {
      && frames != [] && |slots| <= capacity
      && (forall i :: 0 <= i < |slots| ==> slots[i] < |cells|)
      && (forall i, j :: 0 <= i < j < |slots| ==> slots[i] < slots[j])
      && (forall f :: 0 <= f < |frames| ==> frames[f].base < |slots| && frames[f].closure < |env|)
      && (forall f, g :: 0 <= f < g < |frames| ==> frames[f].base < frames[g].base)
      && (forall c, k :: 0 <= c < |env| && 0 <= k < |env[c]| ==> env[c][k] < |cells|)
    }

    function Top(): Frame
      requires frames != []
    {
      frames[|frames| - 1]
    }

    /** The values on the stack. */
    function Contents(): seq<Value>
      requires forall i :: 0 <= i < |slots| ==> slots[i] < |cells|
    {
      seq(|slots|, i requires 0 <= i < |slots| => cells[slots[i]])
    }

    function Read(cell: nat): Value {
      if cell < |cells| then cells[cell] else Data(0)
    }

    function Peek(distance: nat): Value {
      if distance < |slots| then Read(slots[|slots| - 1 - distance]) else Data(0)
    }

    ghost predicate Captured(cell: nat) {
      CapturedIn(env, cell)
    }

    function Push(v: Value): Store {
      this.(slots := slots + [|cells|], cells := cells + [v])
    }

    function Write(cell: nat, v: Value): Store {
      if cell < |cells| then this.(cells := cells[cell := v]) else this
    }

    /** Drops every slot from `height` on. */
    function Cut(height: nat): Store {
      if height <= |slots| then this.(slots := slots[..height]) else this
    }

    function Reserve(needed: nat, round: nat -> nat): Store {
      if capacity >= needed then this else this.(capacity := round(needed))
    }

    /** The cells a closure made by the current function captures. */
    function Captures(captures: seq<Capture>): seq<nat>
      requires frames != []
    {
      seq(|captures|, j requires 0 <= j < |captures| => CapturedCell(captures[j]))
    }

    function CapturedCell(c: Capture): nat
      requires frames != []
    {
      if c.isLocal then (if Top().base + c.index < |slots| then slots[Top().base + c.index] else 0)
      else if Top().closure < |env| && c.index < |env[Top().closure]| then env[Top().closure][c.index]
      else 0
    }
  }

  /** The operations of the machine that touch variables. */
  datatype Op =
    | Push(v: Value)
    | Pop
    | GetLocal(index: nat)
    | SetLocal(index: nat)
    | GetUpvalue(index: nat)
    | SetUpvalue(index: nat)
    | MakeClosure(captures: seq<Capture>)
    | EndScope(count: nat)
    | Call(argc: nat, maxSlots: nat)
    | Return

  /** What well-formed code may do: it stays within its frame, its reserved slots and its
      closure's captures, and drops a slot with plain POP only if nothing captured it. */
  ghost predicate Legal(s: Store, op: Op)
    requires s.Sound()
  {
    var f, h := s.Top(), |s.slots|;
    match op
    case Push(_) => h < s.capacity
    case Pop => h > f.base + 1 && !s.Captured(s.slots[h - 1])
    case GetLocal(i) => f.base + i < h < s.capacity
    case SetLocal(i) => f.base + i < h
    case GetUpvalue(k) => k < |s.env[f.closure]| && h < s.capacity
    case SetUpvalue(k) => k < |s.env[f.closure]|
    case MakeClosure(captures) =>
      && h < s.capacity
      && forall c <- captures :: if c.isLocal then f.base + c.index <= h else c.index < |s.env[f.closure]|
    case EndScope(n) => f.base + n + 1 < h
    case Call(argc, maxSlots) => f.base + argc + 1 < h && s.Peek(argc).Function? && s.Peek(argc).closure < |s.env|
    case Return => |s.frames| > 1 && f.base + 1 < h
  }

  /** The meaning of one operation. */
  function Apply(s: Store, op: Op, round: nat -> nat): Store
    requires s.frames != []
  {
    var f, h := s.Top(), |s.slots|;
    match op
    case Push(v) => s.Push(v)
    case Pop => if h == 0 then s else s.Cut(h - 1)
    case GetLocal(i) => if f.base + i < h then s.Push(s.Read(s.slots[f.base + i])) else s
    case SetLocal(i) => if f.base + i < h then s.Write(s.slots[f.base + i], s.Peek(0)) else s
    case GetUpvalue(k) => s.Push(s.Read(s.CapturedCell(Capture(false, k))))
    case SetUpvalue(k) => s.Write(s.CapturedCell(Capture(false, k)), s.Peek(0))
    case MakeClosure(captures) =>
      var t := s.Push(Function(|s.env|));
      t.(env := s.env + [t.Captures(captures)])
    case EndScope(n) => if n + 1 <= h then s.Cut(h - n - 1).Push(s.Peek(0)) else s
    case Call(argc, maxSlots) =>
      if argc < h && s.Peek(argc).Function? then
        s.Reserve(h + maxSlots, round).(frames := s.frames + [Frame(s.Peek(argc).closure, h - argc - 1)])
      else s
    case Return =>
      if |s.frames| == 1 then s else s.Cut(f.base).Push(s.Peek(0)).(frames := s.frames[..|s.frames| - 1])
  }

  /** Rounding a reservation up never loses slots. */
  ghost predicate RoundsUp(round: nat -> nat) {
    forall n: nat :: round(n) >= n
  }

  lemma PushSound(s: Store, v: Value)
    requires s.Sound() && |s.slots| < s.capacity
    ensures s.Push(v).Sound()
  {
  }

  lemma CutSound(s: Store, height: nat)
    requires s.Sound() && s.Top().base < height <= |s.slots|
    ensures s.Cut(height).Sound()
  {
    forall f | 0 <= f < |s.frames| ensures s.frames[f].base < height {
      assert f == |s.frames| - 1 || s.frames[f].base < s.Top().base;
    }
  }

  lemma WriteSound(s: Store, cell: nat, v: Value)
    requires s.Sound()
    ensures s.Write(cell, v).Sound()
  {
  }

  /** One more element for the last sequence. */
  function Grow<T>(s: seq<seq<T>>, x: T): seq<seq<T>> {
    if s == [] then s else s[..|s| - 1] + [s[|s| - 1] + [x]]
  }

  lemma EnvSound(s: Store)
    requires s.Sound()
    ensures s.(env := s.env + [[]]).Sound()
  {
    var t := s.(env := s.env + [[]]);
    forall c, k | 0 <= c < |t.env| && 0 <= k < |t.env[c]| ensures t.env[c][k] < |t.cells| {
      assert c < |s.env|;
    }
  }

  /** Capturing one variable after another. */
  lemma CaptureStep(t: Store, env: seq<seq<nat>>, captures: seq<Capture>, j: nat)
    requires t.frames != [] && t.env == env && t.Top().closure < |env| && j < |captures|
    ensures
      var s := t.(env := env + [t.Captures(captures)[..j]]);
      s.(env := Grow(s.env, s.CapturedCell(captures[j]))) == t.(env := env + [t.Captures(captures)[..j + 1]])
  {
    var s := t.(env := env + [t.Captures(captures)[..j]]);
    assert s.CapturedCell(captures[j]) == t.CapturedCell(captures[j]) == t.Captures(captures)[j];
    assert t.Captures(captures)[..j + 1] == t.Captures(captures)[..j] + [t.Captures(captures)[j]];
    assert s.env[..|s.env| - 1] == env;
  }

  lemma EnvGrowSound(s: Store, cell: nat)
    requires s.Sound() && cell < |s.cells|
    ensures s.(env := Grow(s.env, cell)).Sound()
  {
  }

  lemma ReserveSound(s: Store, needed: nat, round: nat -> nat)
    requires s.Sound() && RoundsUp(round)
    ensures s.Reserve(needed, round).Sound()
  {
  }

  lemma CallSound(s: Store, argc: nat, maxSlots: nat, round: nat -> nat)
    requires s.Sound() && RoundsUp(round) && Legal(s, Call(argc, maxSlots))
    ensures Apply(s, Call(argc, maxSlots), round).Sound()
  {
    forall f | 0 <= f < |s.frames| ensures s.frames[f].base < |s.slots| - argc - 1 {
      assert f == |s.frames| - 1 || s.frames[f].base < s.Top().base;
    }
  }

  /** Legal operations keep the store sound. */
  lemma StaysSound(s: Store, op: Op, round: nat -> nat)
    requires s.Sound() && RoundsUp(round) && Legal(s, op)
    ensures Apply(s, op, round).Sound()
  {
    match op
    case MakeClosure(captures) => ClosureSound(s, captures, round);
    case Call(argc, maxSlots) => CallSound(s, argc, maxSlots, round);
    case Return => ReturnSound(s, round);
    case _ => SlotSound(s, op, round);
  }

  lemma SlotSound(s: Store, op: Op, round: nat -> nat)
    requires s.Sound() && Legal(s, op) && !op.MakeClosure? && !op.Call? && !op.Return?
    ensures Apply(s, op, round).Sound()
  {
    hide Store.Captured;
    hide Store.CapturedCell;
    var f, h := s.Top(), |s.slots|;
    assert h <= s.capacity;
    hide Store.Sound;
    match op
    case Push(v) => PushSound(s, v);
    case Pop => CutSound(s, h - 1);
    case GetLocal(i) => PushSound(s, s.Read(s.slots[f.base + i]));
    case SetLocal(i) => WriteSound(s, s.slots[f.base + i], s.Peek(0));
    case GetUpvalue(k) => PushSound(s, s.Read(s.CapturedCell(Capture(false, k))));
    case SetUpvalue(k) => WriteSound(s, s.CapturedCell(Capture(false, k)), s.Peek(0));
    case EndScope(n) => EndScopeSound(s, n);
  }

  lemma EndScopeSound(s: Store, n: nat)
    requires s.Sound() && s.Top().base + n + 1 < |s.slots|
    ensures s.Cut(|s.slots| - n - 1).Push(s.Peek(0)).Sound()
  {
    assert |s.slots| <= s.capacity;
    CutSound(s, |s.slots| - n - 1);
    hide Store.Sound;
    PushSound(s.Cut(|s.slots| - n - 1), s.Peek(0));
  }

  /** Back in the caller, before the result is pushed. */
  lemma UnwindSound(s: Store)
    requires s.Sound() && |s.frames| > 1
    ensures s.Cut(s.Top().base).(frames := s.frames[..|s.frames| - 1]).Sound()
  {
    var t := s.Cut(s.Top().base).(frames := s.frames[..|s.frames| - 1]);
    forall f | 0 <= f < |t.frames| ensures t.frames[f].base < |t.slots| {
      assert s.frames[f].base < s.frames[|s.frames| - 1].base;
    }
  }

  lemma ClosureSound(s: Store, captures: seq<Capture>, round: nat -> nat)
    requires s.Sound() && RoundsUp(round) && Legal(s, Op.MakeClosure(captures))
    ensures Apply(s, Op.MakeClosure(captures), round).Sound()
  {
    var t := s.Push(Function(|s.env|));
    forall j | 0 <= j < |captures| ensures t.Captures(captures)[j] < |t.cells| {
      assert captures[j] in captures;
    }
  }

  lemma ReturnSound(s: Store, round: nat -> nat)
    requires s.Sound() && Legal(s, Return)
    ensures Apply(s, Return, round).Sound()
  {
    hide Store.Sound;
    var t := s.Cut(s.Top().base).(frames := s.frames[..|s.frames| - 1]);
    UnwindSound(s);
    assert |t.slots| < t.capacity by { Fits(s); }
    PushSound(t, s.Peek(0));
    assert Apply(s, Return, round) == t.Push(s.Peek(0));
  }

  lemma Fits(s: Store)
    requires s.Sound()
    ensures |s.slots| <= s.capacity
  {
  }

  ghost predicate LegalRun(s: Store, ops: seq<Op>, round: nat -> nat)
    requires s.Sound() && RoundsUp(round)
    decreases |ops|
  {
    ops == [] || (Legal(s, ops[0]) && (StaysSound(s, ops[0], round); LegalRun(Apply(s, ops[0], round), ops[1..], round)))
  }

  ghost function ApplyAll(s: Store, ops: seq<Op>, round: nat -> nat): (t: Store)
    requires s.Sound() && RoundsUp(round) && LegalRun(s, ops, round)
    ensures t.Sound()
    decreases |ops|
  {
    if ops == [] then s
    else
      StaysSound(s, ops[0], round);
      ApplyAll(Apply(s, ops[0], round), ops[1..], round)
  }

  lemma ApplyPush(s: Store, v: Value, round: nat -> nat)
    requires s.Sound()
    ensures s.frames != [] && Apply(s, Op.Push(v), round) == s.Push(v)
  {
  }

  lemma ApplyPop(s: Store, round: nat -> nat)
    requires s.Sound() && s.slots != []
    ensures s.frames != [] && Apply(s, Op.Pop, round) == s.Cut(|s.slots| - 1)
  {
  }

  // ----- what a call may change -----

  /** The run never returns from the frame at depth `d`. */
  ghost predicate StaysIn(s: Store, ops: seq<Op>, d: nat, round: nat -> nat)
    requires s.Sound() && RoundsUp(round) && LegalRun(s, ops, round)
    decreases |ops|
  {
    d <= |s.frames| && (ops == [] || (StaysSound(s, ops[0], round); StaysIn(Apply(s, ops[0], round), ops[1..], d, round)))
  }

  /** Everything below the frame at depth `d` is as in `s`: frames, slots, and the
      values of the variables there that no closure shares. */
  ghost predicate Kept(s: Store, t: Store, d: nat)
    requires s.Sound() && 0 < d <= |s.frames|
  {
    var base := s.frames[d - 1].base;
    && d <= |t.frames| && t.frames[..d] == s.frames[..d]
    && base < |t.slots| && t.slots[..base] == s.slots[..base]
    && |s.cells| <= |t.cells|
    && (forall i :: 0 <= i < base && !s.Captured(s.slots[i]) ==> !t.Captured(s.slots[i]))
    && (forall i :: 0 <= i < base && !s.Captured(s.slots[i]) ==> t.Read(s.slots[i]) == s.Read(s.slots[i]))
  }

  lemma KeptAgain(s: Store, t: Store, u: Store, d: nat)
    requires s.Sound() && t.Sound() && 0 < d <= |s.frames| && Kept(s, t, d) && Kept(t, u, d)
    ensures Kept(s, u, d)
  {
    var base := s.frames[d - 1].base;
    assert t.frames[d - 1] == t.frames[..d][d - 1] == s.frames[d - 1];
    forall i | 0 <= i < base && !s.Captured(s.slots[i])
      ensures !u.Captured(s.slots[i]) && u.Read(s.slots[i]) == s.Read(s.slots[i])
    {
      assert t.slots[i] == t.slots[..base][i] == s.slots[i];
    }
  }

  /** Frames lie above one another. */
  lemma BaseBelowTop(s: Store, d: nat)
    requires s.Sound() && 0 < d <= |s.frames|
    ensures s.frames[d - 1].base <= s.Top().base
    ensures d < |s.frames| ==> s.frames[d - 1].base < s.Top().base
  {
  }

  lemma KeptStep(s: Store, op: Op, d: nat, round: nat -> nat)
    requires s.Sound() && RoundsUp(round) && Legal(s, op) && 0 < d <= |s.frames| && d <= |Apply(s, op, round).frames|
    ensures Kept(s, Apply(s, op, round), d)
  {
    BaseBelowTop(s, d);
    hide Kept;
    match op
    case SetLocal(i) => KeptWrite(s, s.slots[s.Top().base + i], s.Peek(0), d);
    case SetUpvalue(k) =>
      var cell := s.CapturedCell(Capture(false, k));
      assert s.env[s.Top().closure][k] == cell && s.Captured(cell);
      KeptWrite(s, cell, s.Peek(0), d);
    case MakeClosure(captures) => KeptClosure(s, captures, d, round);
    case EndScope(n) => KeptCut(s, |s.slots| - n - 1, s.Peek(0), s.frames, d);
    case Return => KeptCut(s, s.Top().base, s.Peek(0), s.frames[..|s.frames| - 1], d);
    case _ => KeptOther(s, op, d, round);
  }

  lemma KeptOther(s: Store, op: Op, d: nat, round: nat -> nat)
    requires s.Sound() && RoundsUp(round) && Legal(s, op) && 0 < d <= |s.frames| && d <= |Apply(s, op, round).frames|
    requires s.frames[d - 1].base <= s.Top().base
    requires op.Push? || op.Pop? || op.GetLocal? || op.GetUpvalue? || op.Call?
    ensures Kept(s, Apply(s, op, round), d)
  {
    hide Store.CapturedCell;
  }

  lemma KeptWrite(s: Store, cell: nat, v: Value, d: nat)
    requires s.Sound() && 0 < d <= |s.frames|
    requires s.Captured(cell) || cell in s.slots[s.frames[d - 1].base..]
    ensures Kept(s, s.Write(cell, v), d)
  {
    var base := s.frames[d - 1].base;
    forall i | 0 <= i < base && !s.Captured(s.slots[i]) ensures s.slots[i] != cell {
      if cell in s.slots[base..] {
        var j :| 0 <= j < |s.slots| - base && s.slots[base..][j] == cell;
        assert s.slots[i] < s.slots[base + j];
      }
    }
  }

  lemma KeptCut(s: Store, height: nat, v: Value, frames: seq<Frame>, d: nat)
    requires s.Sound() && 0 < d <= |s.frames| && s.frames[d - 1].base <= height <= |s.slots|
    requires d <= |frames| && frames[..d] == s.frames[..d]
    ensures Kept(s, s.Cut(height).Push(v).(frames := frames), d)
  {
  }

  /** A closure captures slots of its own frame, or what is captured already. */
  lemma KeptClosure(s: Store, captures: seq<Capture>, d: nat, round: nat -> nat)
    requires s.Sound() && Legal(s, Op.MakeClosure(captures)) && 0 < d <= |s.frames|
    requires s.frames[d - 1].base <= s.Top().base
    ensures Kept(s, Apply(s, Op.MakeClosure(captures), round), d)
  {
    var t := Apply(s, Op.MakeClosure(captures), round);
    var base := s.frames[d - 1].base;
    forall i | 0 <= i < base && !s.Captured(s.slots[i]) ensures !t.Captured(s.slots[i]) {
      NotCaptured(s, captures, i, base, round);
    }
  }

  lemma NotCaptured(s: Store, captures: seq<Capture>, i: nat, base: nat, round: nat -> nat)
    requires s.Sound() && Legal(s, Op.MakeClosure(captures))
    requires i < base <= s.Top().base && !s.Captured(s.slots[i])
    ensures !Apply(s, Op.MakeClosure(captures), round).Captured(s.slots[i])
  {
    var p := s.Push(Function(|s.env|));
    var t := Apply(s, Op.MakeClosure(captures), round);
    forall c, k | 0 <= c < |t.env| && 0 <= k < |t.env[c]| ensures t.env[c][k] != s.slots[i] {
      if c < |s.env| {
        assert s.env[c][k] == t.env[c][k];
      } else {
        assert captures[k] in captures;
        assert t.env[c][k] == p.CapturedCell(captures[k]);
        if !captures[k].isLocal { assert s.env[s.Top().closure][captures[k].index] == t.env[c][k]; }
      }
    }
  }

  lemma {:induction false} KeptAll(s: Store, ops: seq<Op>, d: nat, round: nat -> nat)
    requires s.Sound() && RoundsUp(round) && LegalRun(s, ops, round) && 0 < d && StaysIn(s, ops, d, round)
    ensures d <= |s.frames| && Kept(s, ApplyAll(s, ops, round), d)
    decreases |ops|
  {
    hide Store.Sound;
    hide Apply;
    hide Legal;
    hide RoundsUp;
    if ops == [] {
      KeptSelf(s, d);
    } else {
      var t := Apply(s, ops[0], round);
      StaysSound(s, ops[0], round);
      KeptAll(t, ops[1..], d, round);
      KeptStep(s, ops[0], d, round);
      KeptAgain(s, t, ApplyAll(t, ops[1..], round), d);
    }
  }

  lemma KeptSelf(s: Store, d: nat)
    requires s.Sound() && 0 < d <= |s.frames|
    ensures Kept(s, s, d)
  {
  }

  /** From a CALL to its RETURN: callee and arguments are replaced by exactly one result,
      which is a new variable; the caller's frames and remaining slots are the same, and
      so is the value of each of its variables that no closure had captured. */
  lemma CallReturns(s: Store, argc: nat, maxSlots: nat, ops: seq<Op>, round: nat -> nat)
    requires s.Sound() && RoundsUp(round) && Legal(s, Call(argc, maxSlots))
    requires Apply(s, Call(argc, maxSlots), round).Sound() && LegalRun(Apply(s, Call(argc, maxSlots), round), ops, round)
    requires StaysIn(Apply(s, Call(argc, maxSlots), round), ops, |s.frames| + 1, round)
    requires var t := ApplyAll(Apply(s, Call(argc, maxSlots), round), ops, round); |t.frames| == |s.frames| + 1 && Legal(t, Return)
    ensures
      var t := ApplyAll(Apply(s, Call(argc, maxSlots), round), ops, round);
      var u := Apply(t, Return, round);
      var base := |s.slots| - argc - 1;
      && u.frames == s.frames && |u.slots| == base + 1 && u.slots[..base] == s.slots[..base]
      && u.slots[base] >= |s.cells| && u.Peek(0) == t.Peek(0)
      && forall i :: 0 <= i < base && !s.Captured(s.slots[i]) ==> u.Read(s.slots[i]) == s.Read(s.slots[i])
  {
    hide LegalRun;
    hide StaysIn;
    hide ApplyAll;
    hide RoundsUp;
    hide CapturedIn;
    var called := Apply(s, Call(argc, maxSlots), round);
    var t := ApplyAll(called, ops, round);
    KeptAll(called, ops, |s.frames| + 1, round);
    hide Store.Sound;
    ReturnFrom(s, called, t, argc, round);
  }

  lemma ReturnFrom(s: Store, called: Store, t: Store, argc: nat, round: nat -> nat)
    requires s.Sound() && s.frames != [] && argc < |s.slots| && called.Sound() && t.Sound()
    requires |called.frames| == |s.frames| + 1 && called.frames[..|s.frames|] == s.frames
    requires called.Top().base == |s.slots| - argc - 1 && called.slots == s.slots && called.cells == s.cells && called.env == s.env
    requires |t.frames| == |s.frames| + 1 && Kept(called, t, |s.frames| + 1)
    ensures
      var u := Apply(t, Return, round);
      var base := |s.slots| - argc - 1;
      && u.frames == s.frames && |u.slots| == base + 1 && u.slots[..base] == s.slots[..base]
      && u.slots[base] >= |s.cells| && u.Peek(0) == t.Peek(0)
      && forall i :: 0 <= i < base && !s.Captured(s.slots[i]) ==> u.Read(s.slots[i]) == s.Read(s.slots[i])
  {
    hide CapturedIn;
    var n := |s.frames|;
    assert t.Top() == t.frames[..n + 1][n] == called.Top();
    assert t.frames[..n] == t.frames[..n + 1][..n] == s.frames;
  }

  // ----- what a run captures -----

  /** The cells that a closure made by this operation captures. */
  ghost predicate CapturedBy(s: Store, op: Op, cell: nat)
    requires s.frames != []
  {
    op.MakeClosure? && cell in s.Push(Function(|s.env|)).Captures(op.captures)
  }

  /** Some closure made during the run captures the cell. */
  ghost predicate CapturedDuring(s: Store, ops: seq<Op>, cell: nat, round: nat -> nat)
    requires s.Sound() && RoundsUp(round) && LegalRun(s, ops, round)
    decreases |ops|
  {
    && ops != []
    && (CapturedBy(s, ops[0], cell) || (StaysSound(s, ops[0], round); CapturedDuring(Apply(s, ops[0], round), ops[1..], cell, round)))
  }

  lemma CapturedStep(s: Store, op: Op, cell: nat, round: nat -> nat)
    requires s.Sound() && Legal(s, op)
    ensures Apply(s, op, round).Captured(cell) <==> s.Captured(cell) || CapturedBy(s, op, cell)
  {
    if op.MakeClosure? {
      var cells := s.Push(Function(|s.env|)).Captures(op.captures);
      MoreCaptured(s.env, cells, cell);
    }
  }

  lemma MoreCaptured(env: seq<seq<nat>>, cells: seq<nat>, cell: nat)
    ensures CapturedIn(env + [cells], cell) <==> CapturedIn(env, cell) || cell in cells
  {
    var more := env + [cells];
    if CapturedIn(env, cell) {
      var c, k :| 0 <= c < |env| && 0 <= k < |env[c]| && env[c][k] == cell;
      assert more[c][k] == cell;
    }
    if cell in cells {
      var k :| 0 <= k < |cells| && cells[k] == cell;
      assert more[|env|][k] == cell;
    }
  }

  /** Captured are exactly the variables that were, and those that a closure of the run
      captures. */
  lemma {:induction false} CapturedAfter(s: Store, ops: seq<Op>, cell: nat, round: nat -> nat)
    requires s.Sound() && RoundsUp(round) && LegalRun(s, ops, round)
    ensures ApplyAll(s, ops, round).Captured(cell) <==> s.Captured(cell) || CapturedDuring(s, ops, cell, round)
    decreases |ops|
  {
    hide Apply;
    hide Legal;
    hide CapturedBy;
    hide Store.Captured;
    if ops != [] {
      StaysSound(s, ops[0], round);
      CapturedStep(s, ops[0], cell, round);
      CapturedAfter(Apply(s, ops[0], round), ops[1..], cell, round);
    }
  }

  /** Each slot is as it was, or holds a variable that is newer than all of them. */
  ghost predicate OldOrNew(s: Store, t: Store) {
    |s.cells| <= |t.cells|
    && forall i :: 0 <= i < |t.slots| ==> t.slots[i] >= |s.cells| || (i < |s.slots| && t.slots[i] == s.slots[i])
  }

  lemma SlotsStep(s: Store, op: Op, round: nat -> nat)
    requires s.Sound() && Legal(s, op)
    ensures OldOrNew(s, Apply(s, op, round))
  {
    hide Store.Captured;
    hide Store.CapturedCell;
  }

  lemma OldOrNewAgain(s: Store, t: Store, u: Store)
    requires OldOrNew(s, t) && OldOrNew(t, u)
    ensures OldOrNew(s, u)
  {
  }

  lemma {:induction false} SlotsAfter(s: Store, ops: seq<Op>, round: nat -> nat)
    requires s.Sound() && RoundsUp(round) && LegalRun(s, ops, round)
    ensures OldOrNew(s, ApplyAll(s, ops, round))
    decreases |ops|
  {
    hide Apply;
    hide Legal;
    if ops != [] {
      var t := Apply(s, ops[0], round);
      StaysSound(s, ops[0], round);
      SlotsStep(s, ops[0], round);
      SlotsAfter(t, ops[1..], round);
      OldOrNewAgain(s, t, ApplyAll(t, ops[1..], round));
    }
  }

  /** A local declared since the start of a loop is captured if and only if a closure made
      since then captures it. */
  lemma CapturedSince(s: Store, ops: seq<Op>, slot: nat, round: nat -> nat)
    requires s.Sound() && RoundsUp(round) && LegalRun(s, ops, round)
    requires |s.slots| <= slot < |ApplyAll(s, ops, round).slots|
    ensures
      var t := ApplyAll(s, ops, round);
      t.Captured(t.slots[slot]) <==> CapturedDuring(s, ops, t.slots[slot], round)
  {
    hide LegalRun;
    hide ApplyAll;
    hide CapturedDuring;
    var t := ApplyAll(s, ops, round);
    SlotsAfter(s, ops, round);
    CapturedAfter(s, ops, t.slots[slot], round);
  }

  function Pops(n: nat): seq<Op> { seq(n, i requires 0 <= i < n => Op.Pop) }

  /** Plain POPs of the top `n` slots are legal exactly when none of them is captured. */
  lemma {:induction false} PopsLegal(s: Store, n: nat, round: nat -> nat)
    requires s.Sound() && RoundsUp(round) && s.Top().base + n < |s.slots|
    ensures LegalRun(s, Pops(n), round) <==> forall i :: |s.slots| - n <= i < |s.slots| ==> !s.Captured(s.slots[i])
    decreases n
  {
    hide Apply;
    hide Legal;
    if n > 0 {
      assert Pops(n)[1..] == Pops(n - 1);
      PopLegal(s, round);
      if !s.Captured(s.slots[|s.slots| - 1]) {
        StaysSound(s, Op.Pop, round);
        hide Store.Sound;
        PopsLegal(s.Cut(|s.slots| - 1), n - 1, round);
      }
    }
  }

  lemma PopLegal(s: Store, round: nat -> nat)
    requires s.Sound() && s.Top().base + 1 < |s.slots|
    ensures Legal(s, Op.Pop) <==> !s.Captured(s.slots[|s.slots| - 1])
    ensures Apply(s, Op.Pop, round) == s.Cut(|s.slots| - 1)
  {
  }
}
