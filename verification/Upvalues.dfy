/** The machine's way of sharing variables: open upvalues point into the stack and form
    a list sorted by slot, growing the stack moves them, leaving a scope closes them.
    `store` is what the same run means on shared cells; every method keeps the two in
    agreement. */
module Upvalues {
  import opened Bytecode
  import opened Cells

  /** Where a value lives: in a stack buffer, or in the upvalue itself. */
  datatype Pointer = InStack(buffer: array<Value>, slot: nat) | Own

  class Upvalue {
    var location: Pointer
    var closed: Value
    var next: Upvalue?
    /** The cell of the variable it stands for. */
    ghost const cell: nat

    constructor (location: Pointer, ghost cell: nat)
      ensures this.location == location && this.cell == cell && next == null
    {
      this.location, this.cell, closed, next := location, cell, Data(0), null;
    }

    /** What its pointer leads to. */
    function Reads(): Value
      reads this, if location.InStack? then {location.buffer} else {}
    {
      if location.Own? then closed
      else if location.slot < location.buffer.Length then location.buffer[location.slot]
      else Data(0)
    }

    /** Takes the variable off the stack. */
    method Close()
      requires location.InStack? && location.slot < location.buffer.Length
      modifies `location, `closed
      ensures location == Own && closed == old(location.buffer[location.slot])
    {
      closed := location.buffer[location.slot];
      location := Own;
    }
  }

  datatype CallFrame = CallFrame(closure: nat, slots: Pointer)

  /** `u` is the list's `j`th element, or null past its end. */
  ghost predicate Links(u: Upvalue?, open: seq<Upvalue>, j: nat) {
    if j < |open| then u == open[j] else u == null
  }

  function InsertAt<T>(s: seq<T>, j: nat, x: T): (r: seq<T>)
    requires j <= |s|
    ensures |r| == |s| + 1 && r[j] == x
    ensures forall i :: 0 <= i < j ==> r[i] == s[i]
    ensures forall i :: j < i < |r| ==> r[i] == s[i - 1]
  {
    s[..j] + [x] + s[j..]
  }

  lemma InsertAtHas<T>(s: seq<T>, j: nat, x: T)
    requires j <= |s|
    ensures x in InsertAt(s, j, x) && forall y <- s :: y in InsertAt(s, j, x)
  {
  }

  /** Each open upvalue stands for the variable in its slot. */
  ghost predicate OpenAgree(open: seq<Upvalue>, marks: seq<nat>, slots: seq<nat>) {
    && |marks| == |open|
    && (forall j :: 0 <= j < |open| ==> marks[j] < |slots|)
    && (forall j :: 0 <= j < |open| && marks[j] < |slots| ==> open[j].cell == slots[marks[j]])
  }

  ghost predicate FramesAgree(frames: seq<CallFrame>, stack: array<Value>, fs: seq<Frame>) {
    && |frames| == |fs|
    && forall f :: 0 <= f < |frames| ==> frames[f] == CallFrame(fs[f].closure, InStack(stack, fs[f].base))
  }

  lemma FramesDrop(frames: seq<CallFrame>, stack: array<Value>, fs: seq<Frame>)
    requires FramesAgree(frames, stack, fs) && frames != []
    ensures FramesAgree(frames[..|frames| - 1], stack, fs[..|fs| - 1])
  {
  }

  lemma FramesAdd(frames: seq<CallFrame>, stack: array<Value>, fs: seq<Frame>, f: Frame)
    requires FramesAgree(frames, stack, fs)
    ensures FramesAgree(frames + [CallFrame(f.closure, InStack(stack, f.base))], stack, fs + [f])
  {
  }

  ghost predicate Unique(upvalues: set<Upvalue>) {
    forall u, v :: u in upvalues && v in upvalues && u.cell == v.cell ==> u == v
  }

  ghost predicate ClosuresAgree(closures: seq<seq<Upvalue>>, upvalues: set<Upvalue>, env: seq<seq<nat>>) {
    && |closures| == |env|
    && (forall c :: 0 <= c < |closures| ==> |closures[c]| == |env[c]|)
    && (forall c, k :: 0 <= c < |closures| && 0 <= k < |closures[c]| ==> closures[c][k] in upvalues)
    && (forall c, k :: 0 <= c < |closures| && 0 <= k < |closures[c]| ==> closures[c][k].cell == env[c][k])
  }

  ghost predicate OnlyCaptured(upvalues: set<Upvalue>, env: seq<seq<nat>>) {
    forall u <- upvalues :: CapturedIn(env, u.cell)
  }

  lemma OpenPush(open: seq<Upvalue>, marks: seq<nat>, slots: seq<nat>, cell: nat)
    requires OpenAgree(open, marks, slots)
    ensures OpenAgree(open, marks, slots + [cell])
  {
  }

  lemma OpenCut(open: seq<Upvalue>, marks: seq<nat>, slots: seq<nat>, height: nat)
    requires height <= |slots| && OpenAgree(open, marks, slots) && forall m <- marks :: m < height
    ensures OpenAgree(open, marks, slots[..height])
  {
    forall j | 0 <= j < |open| ensures marks[j] < height { assert marks[j] in marks; }
  }

  lemma OpenRest(open: seq<Upvalue>, marks: seq<nat>, slots: seq<nat>)
    requires OpenAgree(open, marks, slots) && open != []
    ensures OpenAgree(open[1..], marks[1..], slots)
  {
  }

  ghost predicate Descending(marks: seq<nat>) {
    forall i, j :: 0 <= i < j < |marks| ==> marks[i] > marks[j]
  }

  /** The cell of a closed upvalue is no slot's any more. */
  ghost predicate ClosedAgree(open: seq<Upvalue>, upvalues: set<Upvalue>, cells: seq<Value>, slots: seq<nat>)
    reads upvalues`location, upvalues`closed
  {
    forall u <- upvalues :: u !in open ==> HoldsOwn(u, cells, slots)
  }

  ghost predicate HoldsOwn(u: Upvalue, cells: seq<Value>, slots: seq<nat>)
    reads u`location, u`closed
  {
    u.location.Own? && u.cell < |cells| && u.closed == cells[u.cell] && u.cell !in slots
  }

  lemma Owned(u: Upvalue, cells: seq<Value>, slots: seq<nat>)
    requires u.location.Own? && u.cell < |cells| && u.closed == cells[u.cell] && u.cell !in slots
    ensures HoldsOwn(u, cells, slots)
  {
  }

  lemma ClosedPush(open: seq<Upvalue>, upvalues: set<Upvalue>, cells: seq<Value>, slots: seq<nat>, v: Value)
    requires ClosedAgree(open, upvalues, cells, slots)
    ensures ClosedAgree(open, upvalues, cells + [v], slots + [|cells|])
  {
  }

  lemma ClosedCut(open: seq<Upvalue>, upvalues: set<Upvalue>, cells: seq<Value>, slots: seq<nat>, height: nat)
    requires height <= |slots| && ClosedAgree(open, upvalues, cells, slots)
    ensures ClosedAgree(open, upvalues, cells, slots[..height])
  {
  }

  lemma ClosedWrite(open: seq<Upvalue>, upvalues: set<Upvalue>, cells: seq<Value>, slots: seq<nat>, cell: nat, v: Value)
    requires ClosedAgree(open, upvalues, cells, slots) && cell in slots && cell < |cells|
    ensures ClosedAgree(open, upvalues, cells[cell := v], slots)
  {
  }

  lemma ClosedMore(open: seq<Upvalue>, more: seq<Upvalue>, upvalues: set<Upvalue>, u: Upvalue, cells: seq<Value>, slots: seq<nat>)
    requires ClosedAgree(open, upvalues, cells, slots)
    requires u in more && forall v <- open :: v in more
    ensures ClosedAgree(more, upvalues + {u}, cells, slots)
  {
  }

  lemma UniqueMore(upvalues: set<Upvalue>, u: Upvalue)
    requires Unique(upvalues) && forall v <- upvalues :: v.cell != u.cell
    ensures Unique(upvalues + {u})
  {
  }

  lemma ClosuresMore(closures: seq<seq<Upvalue>>, upvalues: set<Upvalue>, env: seq<seq<nat>>, u: Upvalue)
    requires ClosuresAgree(closures, upvalues, env)
    ensures ClosuresAgree(closures, upvalues + {u}, env)
  {
  }

  /** The last closure captures one more variable. */
  lemma ClosuresGrow(closures: seq<seq<Upvalue>>, upvalues: set<Upvalue>, env: seq<seq<nat>>, u: Upvalue)
    requires ClosuresAgree(closures, upvalues, env) && closures != [] && u in upvalues
    ensures ClosuresAgree(Grow(closures, u), upvalues, Grow(env, u.cell))
  {
  }

  lemma CapturedGrow(upvalues: set<Upvalue>, env: seq<seq<nat>>, u: Upvalue)
    requires env != [] && OnlyCaptured(upvalues, env)
    ensures OnlyCaptured(upvalues + {u}, Grow(env, u.cell))
  {
    forall v <- upvalues + {u} ensures CapturedIn(Grow(env, u.cell), v.cell) {
      if v == u {
        assert Grow(env, u.cell)[|env| - 1][|env[|env| - 1]|] == u.cell;
      } else {
        var c, k :| 0 <= c < |env| && 0 <= k < |env[c]| && env[c][k] == v.cell;
        assert Grow(env, u.cell)[c][k] == v.cell;
      }
    }
  }

  lemma NewClosure(closures: seq<seq<Upvalue>>, upvalues: set<Upvalue>, env: seq<seq<nat>>)
    ensures ClosuresAgree(closures, upvalues, env) ==> ClosuresAgree(closures + [[]], upvalues, env + [[]])
    ensures OnlyCaptured(upvalues, env) ==> OnlyCaptured(upvalues, env + [[]])
  {
    forall cell: nat | CapturedIn(env, cell) ensures CapturedIn(env + [[]], cell) {
      var c, k :| 0 <= c < |env| && 0 <= k < |env[c]| && env[c][k] == cell;
      assert (env + [[]])[c][k] == cell;
    }
  }

  lemma OpenInsert(open: seq<Upvalue>, marks: seq<nat>, slots: seq<nat>, j: nat, slot: nat, u: Upvalue)
    requires OpenAgree(open, marks, slots) && j <= |open| && slot < |slots| && u.cell == slots[slot]
    ensures OpenAgree(InsertAt(open, j, u), InsertAt(marks, j, slot), slots)
  {
  }

  lemma DescendingInsert(marks: seq<nat>, j: nat, slot: nat)
    requires Descending(marks) && j <= |marks|
    requires forall i :: 0 <= i < j ==> marks[i] > slot
    requires j < |marks| ==> marks[j] < slot
    ensures Descending(InsertAt(marks, j, slot))
    ensures slot !in marks
  {
    assert forall i :: j <= i < |marks| ==> marks[i] <= marks[j];
  }

  class VM {
    var stack: array<Value>
    var count: nat
    var frames: seq<CallFrame>
    var openUpvalues: Upvalue?
    /** The captured variables of each closure, in order of allocation. */
    var closures: seq<seq<Upvalue>>
    const round: nat -> nat

    ghost var store: Store
    /** The open upvalues in list order, and the slot each points to. */
    ghost var open: seq<Upvalue>
    ghost var marks: seq<nat>
    ghost var upvalues: set<Upvalue>

    /** The open list: strictly descending by slot, so at most one upvalue per slot. */
    ghost predicate Chained()
      reads `openUpvalues, `open, `marks, `stack, `upvalues, upvalues`location, upvalues`next
    {
      ChainedIn(stack)
    }

    ghost predicate ChainedIn(buffer: array<Value>)
      reads `openUpvalues, `open, `marks, `upvalues, upvalues`location, upvalues`next
    {
      && |marks| == |open| && Descending(marks)
      && (forall j :: 0 <= j < |open| ==> open[j] in upvalues)
      && Links(openUpvalues, open, 0)
      && (forall j {:trigger open[j].next} :: 0 <= j < |open| ==> Links(open[j].next, open, j + 1))
      && (forall j :: 0 <= j < |open| ==> open[j].location == InStack(buffer, marks[j]))
      && (forall j :: 0 <= j < |open| ==> marks[j] < buffer.Length)
    }

    ghost predicate StackAgrees(cells: seq<Value>, slots: seq<nat>, capacity: nat)
      reads `stack, stack
    {
      && |slots| <= stack.Length == capacity
      && (forall i :: 0 <= i < |slots| ==> slots[i] < |cells| && stack[i] == cells[slots[i]])
    }

    ghost predicate Agrees()
      reads this, stack, upvalues
    {
      && store.Sound() && RoundsUp(round) && count == |store.slots|
      && StackAgrees(store.cells, store.slots, store.capacity) && FramesAgree(frames, stack, store.frames) && Chained()
      && OpenAgree(open, marks, store.slots) && ClosedAgree(open, upvalues, store.cells, store.slots) && Unique(upvalues)
      && ClosuresAgree(closures, upvalues, store.env)
    }

    ghost predicate Valid()
      reads this, stack, upvalues
    {
      Agrees() && OnlyCaptured(upvalues, store.env)
    }

    // ----- the stack -----

    method Push(v: Value)
      requires Valid() && count < stack.Length
      modifies `count, `store, stack
      ensures Valid() && store == old(store).Push(v)
    {
      hide ChainedIn;
      hide FramesAgree;
      hide Unique;
      hide ClosuresAgree;
      hide OnlyCaptured;
      PushSound(store, v);
      OpenPush(open, marks, store.slots, |store.cells|);
      ClosedPush(open, upvalues, store.cells, store.slots, v);
      hide Store.Sound;
      hide OpenAgree;
      hide ClosedAgree;
      stack[count] := v;
      count := count + 1;
      store := store.Push(v);
    }

    /** Drops the top slot. What an open upvalue points to must not be dropped. */
    method Pop() returns (v: Value)
      requires Valid() && Legal(store, Op.Pop)
      modifies `count, `store
      ensures Valid() && store == old(store).Cut(old(|store.slots|) - 1) && v == old(store).Peek(0)
    {
      hide ChainedIn;
      hide FramesAgree;
      hide Unique;
      hide ClosuresAgree;
      hide OnlyCaptured;
      hide OpenAgree;
      hide ClosedAgree;
      hide StackAgrees;
      hide Store.Sound;
      hide RoundsUp;
      HasFrame(store);
      StackFits(store.cells, store.slots, store.capacity);
      PeekReads(0);
      CutSound(store, count - 1);
      StackCut(store.cells, store.slots, store.capacity, count - 1);
      NoOpenAt(store, count - 1);
      OpenCut(open, marks, store.slots, count - 1);
      ClosedCut(open, upvalues, store.cells, store.slots, count - 1);
      v := Peek(0);
      count := count - 1;
      store := store.Cut(count);
    }

    lemma NoOpenAt(s: Store, slot: nat)
      requires Chained() && OpenAgree(open, marks, s.slots) && OnlyCaptured(upvalues, s.env)
      requires slot == |s.slots| - 1 && !s.Captured(s.slots[slot])
      ensures forall m <- marks :: m < slot
    {
    }

    function Peek(distance: nat): Value
      requires distance < count <= stack.Length
      reads this, stack
    {
      stack[count - 1 - distance]
    }

    // ----- locals -----

    method GetLocal(index: nat)
      requires Valid() && Legal(store, Op.GetLocal(index))
      modifies `count, `store, stack
      ensures Valid() && store == Apply(old(store), Op.GetLocal(index), round)
    {
      hide ChainedIn;
      hide FramesAgree;
      hide Unique;
      hide ClosuresAgree;
      hide OnlyCaptured;
      hide OpenAgree;
      hide ClosedAgree;
      hide Store.Sound;
      hide RoundsUp;
      HasFrame(store);
      TopFrame();
      var frame := frames[|frames| - 1];
      assert stack[store.Top().base + index] == store.Read(store.slots[store.Top().base + index]);
      Push(frame.slots.buffer[frame.slots.slot + index]);
    }

    lemma HasFrame(s: Store)
      requires s.Sound()
      ensures s.frames != [] && s.Top().base < |s.slots| && s.Top().closure < |s.env|
    {
    }

    lemma PeekReads(distance: nat)
      requires count == |store.slots| && StackAgrees(store.cells, store.slots, store.capacity) && distance < count
      ensures Peek(distance) == store.Peek(distance)
    {
    }

    lemma TopFrame()
      requires store.Sound() && FramesAgree(frames, stack, store.frames)
      ensures frames != []
      ensures frames[|frames| - 1] == CallFrame(store.Top().closure, InStack(stack, store.Top().base))
    {
    }

    method SetLocal(index: nat)
      requires Valid() && Legal(store, Op.SetLocal(index))
      modifies `store, stack
      ensures Valid() && store == Apply(old(store), Op.SetLocal(index), round)
    {
      hide ChainedIn;
      hide FramesAgree;
      hide Unique;
      hide ClosuresAgree;
      hide OnlyCaptured;
      hide OpenAgree;
      hide ClosedAgree;
      hide Store.Sound;
      hide RoundsUp;
      HasFrame(store);
      StackFits(store.cells, store.slots, store.capacity);
      TopFrame();
      var frame := frames[|frames| - 1];
      PeekReads(0);
      WriteSlot(frame.slots.slot + index, Peek(0));
    }

    /** Assigns the variable in a stack slot. */
    method WriteSlot(slot: nat, v: Value)
      requires Agrees() && OnlyCaptured(upvalues, store.env) && slot < count
      modifies `store, stack
      ensures Valid() && store == old(store).Write(old(store).slots[slot], v)
    {
      hide ChainedIn;
      hide FramesAgree;
      hide Unique;
      hide ClosuresAgree;
      hide OnlyCaptured;
      hide OpenAgree;
      var cell := store.slots[slot];
      WriteSound(store, cell, v);
      ClosedWrite(open, upvalues, store.cells, store.slots, cell, v);
      hide ClosedAgree;
      stack[slot] := v;
      store := store.Write(cell, v);
    }

    // ----- captured variables -----

    /** What the upvalue's pointer leads to. */
    method Deref(u: Upvalue) returns (v: Value)
      requires Agrees() && u in upvalues
      ensures v == store.Read(u.cell)
    {
      hide Store.Sound;
      UpvaluePlace(u);
      v := u.Reads();
    }

    lemma UpvaluePlace(u: Upvalue)
      requires Chained() && OpenAgree(open, marks, store.slots) && ClosedAgree(open, upvalues, store.cells, store.slots) && u in upvalues
      ensures u.location.InStack? <==> u in open
      ensures u.location.InStack? ==>
        && u.location.buffer == stack && u.location.slot < |store.slots| && u.cell == store.slots[u.location.slot]
      ensures u.location.Own? ==> u.cell < |store.cells| && u.closed == store.cells[u.cell] && u.cell !in store.slots
    {
    }

    /** The upvalue a closure holds at an index. */
    method UpvalueOf(index: nat) returns (u: Upvalue)
      requires Agrees() && index < |store.env[store.Top().closure]|
      ensures u in upvalues && u.cell == store.CapturedCell(Capture(false, index))
    {
      TopFrame();
      u := closures[frames[|frames| - 1].closure][index];
    }

    method GetUpvalue(index: nat)
      requires Valid() && Legal(store, Op.GetUpvalue(index))
      modifies `count, `store, stack
      ensures Valid() && store == Apply(old(store), Op.GetUpvalue(index), round)
    {
      hide ChainedIn;
      hide FramesAgree;
      hide Unique;
      hide ClosuresAgree;
      hide OnlyCaptured;
      hide OpenAgree;
      hide ClosedAgree;
      hide StackAgrees;
      hide Store.Sound;
      hide RoundsUp;
      HasFrame(store);
      StackFits(store.cells, store.slots, store.capacity);
      var u := UpvalueOf(index);
      var v := Deref(u);
      Push(v);
    }

    method SetUpvalue(index: nat)
      requires Valid() && Legal(store, Op.SetUpvalue(index))
      modifies `store, stack, upvalues`closed
      ensures Valid() && store == Apply(old(store), Op.SetUpvalue(index), round)
    {
      hide ChainedIn;
      hide FramesAgree;
      hide Unique;
      hide ClosuresAgree;
      hide OnlyCaptured;
      hide OpenAgree;
      hide ClosedAgree;
      hide StackAgrees;
      hide Store.Sound;
      hide RoundsUp;
      HasFrame(store);
      StackFits(store.cells, store.slots, store.capacity);
      var u := UpvalueOf(index);
      UpvaluePlace(u);
      PeekReads(0);
      if u.location.InStack? {
        WriteSlot(u.location.slot, Peek(0));
      } else {
        WriteClosed(u, Peek(0));
      }
    }

    method WriteClosed(u: Upvalue, v: Value)
      requires Valid() && u in upvalues && u !in open
      modifies `store, upvalues`closed
      ensures Valid() && store == old(store).Write(u.cell, v)
    {
      hide ChainedIn;
      hide FramesAgree;
      hide ClosuresAgree;
      hide OnlyCaptured;
      hide OpenAgree;
      WriteSound(store, u.cell, v);
      hide Store.Sound;
      u.closed := v;
      store := store.Write(u.cell, v);
    }

    // ----- closing -----

    /** Closes exactly the open upvalues at or above `last`: the first `closed` ones. */
    method CloseUpvalues(last: nat) returns (ghost closed: nat)
      requires store.Sound() && StackAgrees(store.cells, store.slots, store.capacity) && Chained() && last <= |store.slots|
      requires OpenAgree(open, marks, store.slots) && ClosedAgree(open, upvalues, store.cells, store.slots)
      modifies `openUpvalues, `open, `marks, upvalues`location, upvalues`closed
      ensures Chained() && OpenAgree(open, marks, store.slots[..last]) && ClosedAgree(open, upvalues, store.cells, store.slots[..last])
      ensures closed <= |old(open)| && open == old(open)[closed..]
      ensures forall j :: 0 <= j < |old(marks)| ==> (old(marks)[j] >= last <==> j < closed)
    {
      hide Store.Sound;
      hide StackAgrees;
      hide OpenAgree;
      hide ClosedAgree;
      ClosedCut(open, upvalues, store.cells, store.slots, last);
      closed := 0;
      while openUpvalues != null && openUpvalues.location.slot >= last
        invariant Chained() && OpenAgree(open, marks, store.slots) && ClosedAgree(open, upvalues, store.cells, store.slots[..last])
        invariant closed <= |old(open)| == |old(marks)| && open == old(open)[closed..] && marks == old(marks)[closed..]
        invariant forall j :: 0 <= j < closed ==> old(marks)[j] >= last
        decreases |open|
      {
        CloseOne(last);
        closed := closed + 1;
      }
      AllBelow(last);
      hide ChainedIn;
      assert forall j :: closed <= j < |old(marks)| ==> old(marks)[j] == marks[j - closed];
      OpenCut(open, marks, store.slots, last);
    }

    /** When the topmost open upvalue is below `last`, all are. */
    lemma AllBelow(last: nat)
      requires Chained() && (openUpvalues == null || openUpvalues.location.slot < last)
      ensures forall m <- marks :: m < last
      ensures forall j :: 0 <= j < |marks| ==> marks[j] < last
    {
    }

    lemma OpenDistinct()
      requires Chained()
      ensures Descending(marks) && forall i, j :: 0 <= i < j < |open| ==> open[i] != open[j]
    {
    }

    /** Moves the topmost open variable into its upvalue. */
    method CloseOne(last: nat)
      requires store.Sound() && StackAgrees(store.cells, store.slots, store.capacity) && Chained() && last <= |store.slots|
      requires OpenAgree(open, marks, store.slots) && ClosedAgree(open, upvalues, store.cells, store.slots[..last])
      requires openUpvalues != null && marks != [] && marks[0] >= last
      modifies `openUpvalues, `open, `marks, upvalues`location, upvalues`closed
      ensures Chained() && OpenAgree(open, marks, store.slots) && ClosedAgree(open, upvalues, store.cells, store.slots[..last])
      ensures old(marks) != [] && old(marks)[0] >= last && open == old(open)[1..] && marks == old(marks)[1..]
    {
      hide StackAgrees;
      hide Store.Sound;
      hide OpenAgree;
      hide HoldsOwn;
      var u := openUpvalues;
      Topmost(u, last);
      OpenRest(open, marks, store.slots);
      u.Close();
      Owned(u, store.cells, store.slots[..last]);
      openUpvalues, open, marks := u.next, open[1..], marks[1..];
      assert Chained();
      hide ChainedIn;
      assert ClosedAgree(open, upvalues, store.cells, store.slots[..last]);
    }

    lemma Topmost(u: Upvalue, last: nat)
      requires store.Sound() && StackAgrees(store.cells, store.slots, store.capacity) && Chained() && OpenAgree(open, marks, store.slots)
      requires u == openUpvalues && marks != [] && last <= marks[0]
      ensures open != [] && u == open[0] && u !in open[1..]
      ensures u.location == InStack(stack, marks[0]) && marks[0] < stack.Length && stack[marks[0]] == store.Read(u.cell)
      ensures u.cell < |store.cells| && u.cell !in store.slots[..last]
    {
    }

    lemma StackFits(cells: seq<Value>, slots: seq<nat>, capacity: nat)
      requires StackAgrees(cells, slots, capacity)
      ensures |slots| <= stack.Length == capacity
    {
    }

    lemma StackCut(cells: seq<Value>, slots: seq<nat>, capacity: nat, height: nat)
      requires StackAgrees(cells, slots, capacity) && height <= |slots|
      ensures StackAgrees(cells, slots[..height], capacity)
    {
    }

    /** Leaves a scope: the result stays, `slotCount` locals below it go. */
    method EndScope(slotCount: nat)
      requires Valid() && Legal(store, Op.EndScope(slotCount))
      modifies `count, `store, `openUpvalues, `open, `marks, stack, upvalues`location, upvalues`closed
      ensures Valid() && store == Apply(old(store), Op.EndScope(slotCount), round)
    {
      hide ChainedIn;
      hide FramesAgree;
      hide Unique;
      hide ClosuresAgree;
      hide OnlyCaptured;
      hide OpenAgree;
      hide ClosedAgree;
      hide StackAgrees;
      hide Store.Sound;
      hide RoundsUp;
      HasFrame(store);
      StackFits(store.cells, store.slots, store.capacity);
      PeekReads(0);
      assert store.Top().base < count - 1 - slotCount;
      var result := Peek(0);
      count := count - 1;
      StackFits(store.cells, store.slots, store.capacity);
      ghost var _ := CloseUpvalues(count - slotCount);
      for i := 0 to slotCount
        invariant count == old(count) - 1 - i
        modifies `count
      {
        count := count - 1;
      }
      CutSound(store, count);
      StackCut(store.cells, store.slots, store.capacity, count);
      store := store.Cut(count);
      Push(result);
    }

    // ----- functions -----

    method Return()
      requires Valid() && Legal(store, Op.Return)
      modifies `count, `store, `frames, `openUpvalues, `open, `marks, stack, upvalues`location, upvalues`closed
      ensures Valid() && store == Apply(old(store), Op.Return, round)
    {
      hide ChainedIn;
      hide FramesAgree;
      hide Unique;
      hide ClosuresAgree;
      hide OnlyCaptured;
      hide OpenAgree;
      hide ClosedAgree;
      hide StackAgrees;
      hide Store.Sound;
      hide RoundsUp;
      HasFrame(store);
      StackFits(store.cells, store.slots, store.capacity);
      PeekReads(0);
      TopFrame();
      ghost var base, outer := store.Top().base, store.frames[..|store.frames| - 1];
      var result := Peek(0);
      count := count - 1;
      var frameSlots := frames[|frames| - 1].slots;
      ghost var _ := CloseUpvalues(frameSlots.slot);
      FramesDrop(frames, stack, store.frames);
      frames := frames[..|frames| - 1];
      count := frameSlots.slot;
      UnwindSound(store);
      StackCut(store.cells, store.slots, store.capacity, base);
      store := store.Cut(base).(frames := outer);
      Push(result);
    }

    /** Reserves slots; a full stack moves to a larger buffer, and every frame and open
        upvalue is pointed to the same slot of it. */
    method EnsureStackSpace(needed: nat)
      requires Valid()
      modifies `stack, `store, `frames, upvalues`location
      ensures Valid() && store == old(store).Reserve(needed, round)
      ensures stack == old(stack) || fresh(stack)
    {
      hide ChainedIn;
      hide FramesAgree;
      hide Unique;
      hide ClosuresAgree;
      hide OnlyCaptured;
      hide OpenAgree;
      hide ClosedAgree;
      hide Store.Sound;
      ReserveSound(store, needed, round);
      if stack.Length >= needed {
        return;
      }
      var moved := CopyStack(round(needed));
      MoveFrames(moved);
      MoveUpvalues(moved);
      stack := moved;
      store := store.Reserve(needed, round);
    }

    method CopyStack(capacity: nat) returns (moved: array<Value>)
      requires count <= stack.Length && count <= capacity
      ensures fresh(moved) && moved.Length == capacity
      ensures forall i :: 0 <= i < count ==> moved[i] == stack[i]
    {
      moved := new Value[capacity];
      for i := 0 to count
        invariant forall j :: 0 <= j < i ==> moved[j] == stack[j]
      {
        moved[i] := stack[i];
      }
    }

    method MoveFrames(moved: array<Value>)
      requires FramesAgree(frames, stack, store.frames)
      modifies `frames
      ensures FramesAgree(frames, moved, store.frames)
    {
      for i := 0 to |frames|
        invariant |frames| == |old(frames)|
        invariant FramesAgree(frames[..i], moved, store.frames[..i])
        invariant frames[i..] == old(frames)[i..]
      {
        FramesAdd(frames[..i], moved, store.frames[..i], store.frames[i]);
        var frame := frames[i];
        assert frame == old(frames)[i] == CallFrame(store.frames[i].closure, InStack(stack, store.frames[i].base));
        frames := frames[i := frame.(slots := InStack(moved, frame.slots.slot))];
        assert frames[..i + 1] == frames[..i] + [frames[i]];
        assert store.frames[..i + 1] == store.frames[..i] + [store.frames[i]];
      }
      assert frames[..|frames|] == frames && store.frames[..|frames|] == store.frames;
    }

    /** The list is walked from its head; only locations change. */
    method MoveUpvalues(moved: array<Value>)
      requires Chained() && moved.Length >= stack.Length && ClosedAgree(open, upvalues, store.cells, store.slots)
      modifies upvalues`location
      ensures ChainedIn(moved) && ClosedAgree(open, upvalues, store.cells, store.slots)
    {
      OpenDistinct();
      var upvalue := openUpvalues;
      ghost var j := 0;
      while upvalue != null
        invariant 0 <= j <= |open| && Links(upvalue, open, j)
        invariant forall i :: 0 <= i < j ==> open[i].location == InStack(moved, marks[i])
        invariant forall i :: j <= i < |open| ==> open[i].location == InStack(stack, marks[i])
        invariant ClosedAgree(open, upvalues, store.cells, store.slots)
        decreases |open| - j
      {
        upvalue.location := InStack(moved, upvalue.location.slot);
        upvalue := upvalue.next;
        j := j + 1;
      }
    }

    /** Opens a frame over the callee and its arguments. */
    method Call(argc: nat, maxSlots: nat)
      requires Valid() && Legal(store, Op.Call(argc, maxSlots))
      modifies `stack, `store, `frames, upvalues`location
      ensures Valid() && store == Apply(old(store), Op.Call(argc, maxSlots), round)
      ensures stack == old(stack) || fresh(stack)
    {
      hide ChainedIn;
      hide FramesAgree;
      hide Unique;
      hide ClosuresAgree;
      hide OnlyCaptured;
      hide OpenAgree;
      hide ClosedAgree;
      hide StackAgrees;
      hide Store.Sound;
      hide RoundsUp;
      StackFits(store.cells, store.slots, store.capacity);
      CallSound(store, argc, maxSlots, round);
      PeekReads(argc);
      var callee := Peek(argc);
      EnsureStackSpace(count + maxSlots);
      ghost var f := Frame(callee.closure, count - argc - 1);
      FramesAdd(frames, stack, store.frames, f);
      frames := frames + [CallFrame(callee.closure, InStack(stack, count - argc - 1))];
      store := store.(frames := store.frames + [f]);
    }

    // ----- capturing -----

    /** The open upvalue of a slot: the one in the list, or a new one put in its place. */
    method CaptureUpvalue(slot: nat) returns (upvalue: Upvalue)
      requires Agrees() && slot < |store.slots|
      modifies `openUpvalues, `open, `marks, `upvalues, upvalues`next
      ensures Agrees() && upvalue.cell == store.slots[slot]
      ensures upvalues == old(upvalues) + {upvalue} && (upvalue in old(upvalues) || fresh(upvalue))
    {
      hide FramesAgree;
      hide Unique;
      hide ClosuresAgree;
      hide OnlyCaptured;
      hide OpenAgree;
      hide ClosedAgree;
      hide StackAgrees;
      hide Store.Sound;
      hide RoundsUp;
      StackFits(store.cells, store.slots, store.capacity);
      var prev: Upvalue?, next := null, openUpvalues;
      ghost var j := 0;
      while next != null && next.location.slot > slot
        invariant 0 <= j <= |open| && Links(next, open, j) && (if j == 0 then prev == null else prev == open[j - 1])
        invariant forall i :: 0 <= i < j ==> marks[i] > slot
        decreases |open| - j
      {
        prev, next := next, next.next;
        j := j + 1;
      }
      if next != null && next.location.slot == slot {
        OpenCell(j, store.slots);
        return next;
      }
      assert j < |open| ==> marks[j] < slot;
      upvalue := Insert(slot, prev, next, j);
    }

    lemma OpenCell(j: nat, slots: seq<nat>)
      requires ChainedIn(stack) && OpenAgree(open, marks, slots) && j < |open|
      ensures open[j] in upvalues && marks[j] < |slots| && open[j].cell == slots[marks[j]]
    {
    }

    /** A slot without an open upvalue has a variable without any. */
    lemma NewCell(slot: nat)
      requires Agrees() && slot < |store.slots| && slot !in marks
      ensures forall u <- upvalues :: u.cell != store.slots[slot]
    {
      forall u <- upvalues ensures u.cell != store.slots[slot] {
        if u in open {
          var j :| 0 <= j < |open| && open[j] == u;
          assert marks[j] in marks;
        }
      }
    }

    /** Links a new upvalue between `prev` and `next`, at position `j` of the list. */
    method Insert(slot: nat, prev: Upvalue?, next: Upvalue?, ghost j: nat) returns (upvalue: Upvalue)
      requires Agrees() && slot < |store.slots| <= stack.Length && j <= |open| == |marks|
      requires Links(next, open, j) && (if j == 0 then prev == null else prev == open[j - 1])
      requires forall i :: 0 <= i < j ==> marks[i] > slot
      requires j < |open| ==> marks[j] < slot
      modifies `openUpvalues, `open, `marks, `upvalues, upvalues`next
      ensures Agrees() && upvalue.cell == store.slots[slot]
      ensures upvalues == old(upvalues) + {upvalue} && fresh(upvalue)
    {
      hide FramesAgree;
      hide Unique;
      hide ClosuresAgree;
      hide OnlyCaptured;
      hide OpenAgree;
      hide ClosedAgree;
      hide StackAgrees;
      hide Store.Sound;
      hide RoundsUp;
      hide ChainedIn;
      OpenDistinct();
      DescendingInsert(marks, j, slot);
      NewCell(slot);
      upvalue := new Upvalue(InStack(stack, slot), store.slots[slot]);
      OpenInsert(open, marks, store.slots, j, slot, upvalue);
      UniqueMore(upvalues, upvalue);
      ClosuresMore(closures, upvalues, store.env, upvalue);
      InsertAtHas(open, j, upvalue);
      ClosedMore(open, InsertAt(open, j, upvalue), upvalues, upvalue, store.cells, store.slots);
      Link(upvalue, slot, prev, next, j);
    }

    method Link(upvalue: Upvalue, slot: nat, prev: Upvalue?, next: Upvalue?, ghost j: nat)
      requires Chained() && upvalue !in upvalues && upvalue.location == InStack(stack, slot) && slot < stack.Length
      requires j <= |open| == |marks| && Descending(InsertAt(marks, j, slot))
      requires Links(next, open, j) && (if j == 0 then prev == null else prev == open[j - 1])
      modifies `openUpvalues, `open, `marks, `upvalues, upvalues`next, upvalue`next
      ensures Chained() && upvalues == old(upvalues) + {upvalue}
      ensures open == InsertAt(old(open), j, upvalue) && marks == InsertAt(old(marks), j, slot)
    {
      OpenDistinct();
      ghost var was, wasMarks := open, marks;
      upvalue.next := next;
      if prev == null {
        openUpvalues := upvalue;
      } else {
        prev.next := upvalue;
      }
      open, marks := InsertAt(open, j, upvalue), InsertAt(marks, j, slot);
      upvalues := upvalues + {upvalue};
      Rechained(was, wasMarks, j, upvalue);
    }

    /** The list after an insertion, from the list before it. */
    lemma Rechained(was: seq<Upvalue>, wasMarks: seq<nat>, j: nat, u: Upvalue)
      requires |was| == |wasMarks| && j <= |was| && u in upvalues && (forall v <- was :: v in upvalues)
      requires u.location.InStack? && u.location == InStack(stack, u.location.slot) && u.location.slot < stack.Length
      requires open == InsertAt(was, j, u) && marks == InsertAt(wasMarks, j, u.location.slot) && Descending(marks)
      requires forall i :: 0 <= i < |was| ==> was[i].location == InStack(stack, wasMarks[i])
      requires forall i :: 0 <= i < |was| ==> wasMarks[i] < stack.Length
      requires forall i {:trigger was[i].next} :: 0 <= i < |was| && i != j - 1 ==> Links(was[i].next, was, i + 1)
      requires if j == 0 then openUpvalues == u else openUpvalues == was[0] && was[j - 1].next == u
      requires Links(u.next, was, j)
      ensures ChainedIn(stack)
    {
      hide InsertAt;
      hide Descending;
      forall i | 0 <= i < |open| ensures Links(open[i].next, open, i + 1) {
        if i < j - 1 {
          assert open[i] == was[i] && open[i + 1] == was[i + 1];
        } else if i > j {
          assert open[i] == was[i - 1] && Links(was[i - 1].next, was, i);
        }
      }
    }

    /** Makes a closure: it is pushed first, and may capture its own slot. */
    method DoClosure(captures: seq<Capture>)
      requires Valid() && Legal(store, Op.MakeClosure(captures))
      modifies `count, `store, `closures, `openUpvalues, `open, `marks, `upvalues, stack, upvalues`next
      ensures Valid() && store == Apply(old(store), Op.MakeClosure(captures), round)
      ensures old(upvalues) <= upvalues && fresh(upvalues - old(upvalues))
    {
      hide ChainedIn;
      hide FramesAgree;
      hide Unique;
      hide ClosuresAgree;
      hide OnlyCaptured;
      hide OpenAgree;
      hide ClosedAgree;
      hide StackAgrees;
      hide Store.Sound;
      hide RoundsUp;
      HasFrame(store);
      StackFits(store.cells, store.slots, store.capacity);
      ClosureCount();
      ghost var s, t := store, store.Push(Function(|closures|));
      Push(Function(|closures|));
      NewClosure(closures, upvalues, store.env);
      EnvSound(store);
      closures := closures + [[]];
      store := store.(env := store.env + [[]]);
      for j := 0 to |captures|
        invariant Valid() && store == t.(env := s.env + [t.Captures(captures)[..j]])
        invariant old(upvalues) <= upvalues && fresh(upvalues - old(upvalues))
      {
        assert captures[j] in captures;
        CaptureStep(t, s.env, captures, j);
        AddCapture(captures[j]);
      }
      assert t.Captures(captures)[..|captures|] == t.Captures(captures);
    }

    lemma ClosureCount()
      requires ClosuresAgree(closures, upvalues, store.env)
      ensures |closures| == |store.env|
    {
    }

    /** Captures one more variable for the newest closure: a slot of this frame, or what
        the running closure captured. */
    method AddCapture(c: Capture)
      requires Valid() && store.Top().closure < |store.env| - 1
      requires if c.isLocal then store.Top().base + c.index < |store.slots| else c.index < |store.env[store.Top().closure]|
      modifies `store, `closures, `openUpvalues, `open, `marks, `upvalues, upvalues`next
      ensures Valid() && store == old(store).(env := Grow(old(store).env, old(store).CapturedCell(c)))
      ensures old(upvalues) <= upvalues && fresh(upvalues - old(upvalues))
    {
      hide ChainedIn;
      hide FramesAgree;
      hide Unique;
      hide ClosuresAgree;
      hide OnlyCaptured;
      hide OpenAgree;
      hide ClosedAgree;
      hide StackAgrees;
      hide Store.Sound;
      hide RoundsUp;
      HasFrame(store);
      CellInRange(c);
      hide Store.CapturedCell;
      var u := CapturedUpvalue(c);
      ClosureCount();
      ClosuresGrow(closures, upvalues, store.env, u);
      CapturedGrow(old(upvalues), store.env, u);
      assert old(upvalues) + {u} == upvalues;
      EnvGrowSound(store, u.cell);
      closures := Grow(closures, u);
      store := store.(env := Grow(store.env, u.cell));
    }

    method CapturedUpvalue(c: Capture) returns (u: Upvalue)
      requires Agrees()
      requires if c.isLocal then store.Top().base + c.index < |store.slots| else c.index < |store.env[store.Top().closure]|
      modifies `openUpvalues, `open, `marks, `upvalues, upvalues`next
      ensures Agrees() && u.cell == store.CapturedCell(c)
      ensures upvalues == old(upvalues) + {u} && (u in old(upvalues) || fresh(u))
    {
      hide ChainedIn;
      hide FramesAgree;
      hide Unique;
      hide ClosuresAgree;
      hide OnlyCaptured;
      hide OpenAgree;
      hide ClosedAgree;
      hide StackAgrees;
      hide Store.Sound;
      hide RoundsUp;
      HasFrame(store);
      TopFrame();
      if c.isLocal {
        u := CaptureUpvalue(frames[|frames| - 1].slots.slot + c.index);
      } else {
        u := UpvalueOf(c.index);
        assert upvalues == upvalues + {u};
      }
    }

    lemma CellInRange(c: Capture)
      requires store.Sound()
      requires if c.isLocal then store.Top().base + c.index < |store.slots| else c.index < |store.env[store.Top().closure]|
      ensures store.CapturedCell(c) < |store.cells|
    {
    }

    // ----- whole runs -----

    /** A machine that runs a script without captures, whose closure is in the first slot. */
    constructor (capacity: nat, round: nat -> nat)
      requires capacity > 0 && RoundsUp(round)
      ensures Valid() && this.round == round && fresh(stack) && upvalues == {}
      ensures store == Store([Function(0)], [0], [Frame(0, 0)], [[]], capacity)
    {
      this.round := round;
      var buffer := new Value[capacity];
      stack, count, frames := buffer, 1, [CallFrame(0, InStack(buffer, 0))];
      openUpvalues, closures := null, [[]];
      open, marks, upvalues := [], [], {};
      store := Store([Function(0)], [0], [Frame(0, 0)], [[]], capacity);
      new;
      buffer[0] := Function(0);
    }

    /** One step of the machine has the meaning of one step on shared cells. */
    method Execute(op: Op)
      requires Valid() && Legal(store, op)
      modifies this, stack, upvalues
      ensures Valid() && store == Apply(old(store), op, round)
      ensures stack == old(stack) || fresh(stack)
      ensures old(upvalues) <= upvalues && fresh(upvalues - old(upvalues))
    {
      hide Apply;
      hide Store.Sound;
      hide Agrees;
      hide OnlyCaptured;
      SoundStore();
      match op
      case Push(v) => ApplyPush(store, v, round); StackSize(); Push(v);
      case Pop => ApplyPop(store, round); var _ := Pop();
      case GetLocal(index) => GetLocal(index);
      case SetLocal(index) => SetLocal(index);
      case GetUpvalue(index) => GetUpvalue(index);
      case SetUpvalue(index) => SetUpvalue(index);
      case MakeClosure(captures) => DoClosure(captures);
      case EndScope(slotCount) => EndScope(slotCount);
      case Call(argc, maxSlots) => Call(argc, maxSlots);
      case Return => Return();
    }

    lemma SoundStore()
      requires Valid()
      ensures store.Sound()
    {
    }

    lemma StackSize()
      requires Valid()
      ensures count == |store.slots| <= stack.Length == store.capacity
    {
    }

    /** Over every run the machine agrees with the store on shared cells: the stack holds
        what the store's slots hold, and every upvalue reads its variable. */
    method Run(ops: seq<Op>)
      requires Valid() && LegalRun(store, ops, round)
      modifies this, stack, upvalues
      ensures Valid() && LegalRun(old(store), ops, round) && store == ApplyAll(old(store), ops, round)
      ensures stack == old(stack) || fresh(stack)
      ensures old(upvalues) <= upvalues && fresh(upvalues - old(upvalues))
    {
      hide Apply;
      hide Legal;
      hide Store.Sound;
      ghost var s := store;
      for i := 0 to |ops|
        invariant Valid() && LegalRun(store, ops[i..], round)
        invariant LegalRun(s, ops, round) && ApplyAll(store, ops[i..], round) == ApplyAll(s, ops, round)
        invariant stack == old(stack) || fresh(stack)
        invariant old(upvalues) <= upvalues && fresh(upvalues - old(upvalues))
      {
        assert ops[i..][0] == ops[i] && ops[i..][1..] == ops[i + 1..];
        Execute(ops[i]);
      }
      assert ops[|ops|..] == [];
    }

    /** The upvalue of a live variable points to its slot. */
    lemma LiveIsOpen(u: Upvalue, slot: nat)
      requires Valid() && slot < |store.slots| && u in upvalues && u.cell == store.slots[slot]
      ensures u.location == InStack(stack, slot) && slot in marks
    {
      assert u in open;
      var j :| 0 <= j < |open| && open[j] == u;
      assert store.slots[marks[j]] == store.slots[slot];
      assert marks[j] == slot;
    }

    /** A live variable has an open upvalue exactly when a closure captured it. */
    lemma CapturedIsOpen(slot: nat)
      requires Valid() && slot < |store.slots|
      ensures store.Captured(store.slots[slot]) <==> slot in marks
    {
      if slot in marks {
        var j :| 0 <= j < |marks| && marks[j] == slot;
        assert open[j] in upvalues && open[j].cell == store.slots[slot];
      }
      if store.Captured(store.slots[slot]) {
        var c, k :| 0 <= c < |store.env| && 0 <= k < |store.env[c]| && store.env[c][k] == store.slots[slot];
        LiveIsOpen(closures[c][k], slot);
      }
    }

    /** Every upvalue a closure holds reads the value of its variable. */
    lemma UpvaluesRead(c: nat, k: nat)
      requires Valid() && c < |closures| && k < |closures[c]|
      ensures c < |store.env| && k < |store.env[c]| && closures[c][k] in upvalues
      ensures closures[c][k].Reads() == store.Read(store.env[c][k])
    {
      UpvaluePlace(closures[c][k]);
    }

    // ----- dropping locals with plain POP -----

    /** What an upvalue reads when the slots from `from` on hold these values. */
    ghost function ReadsAfter(u: Upvalue, from: nat, ws: seq<Value>): Value
      reads u, if u.location.InStack? then {u.location.buffer} else {}
    {
      if u.location.InStack? && from <= u.location.slot < from + |ws| then ws[u.location.slot - from] else u.Reads()
    }

    /** Plain POPs, and pushes in their place. */
    method Refill(ws: seq<Value>)
      requires |ws| < count <= stack.Length
      modifies `count, stack
      ensures count == old(count)
      ensures forall i :: 0 <= i < stack.Length ==>
        stack[i] == if count - |ws| <= i < count then ws[i - (count - |ws|)] else old(stack[i])
    {
      for i := 0 to |ws|
        invariant count == old(count) - i
        modifies `count
      {
        count := count - 1;
      }
      ghost var from := count;
      for i := 0 to |ws|
        invariant count == from + i
        invariant forall j :: 0 <= j < stack.Length ==> stack[j] == if from <= j < count then ws[j - from] else old(stack[j])
      {
        stack[count] := ws[i];
        count := count + 1;
      }
    }

    /** Drops slots with plain POPs, as `continue` and `break` do to the locals declared
        since the loop's start, and pushes new values, as what comes next does. The
        variables keep their meaning; this is what upvalues read then. */
    method Replace(ws: seq<Value>)
      requires Valid() && |ws| < count
      modifies `count, stack
      ensures count == old(count) <= stack.Length
      ensures forall i :: 0 <= i < count ==> stack[i] == if i < count - |ws| then old(stack[i]) else ws[i - (count - |ws|)]
      ensures forall u <- upvalues :: u.Reads() == old(ReadsAfter(u, count - |ws|, ws))
    {
      Pointed();
      StackSize();
      hide Valid;
      Refill(ws);
    }

    method Reuse(ws: seq<Value>)
      requires Valid() && |ws| < count
      modifies `count, stack
      ensures count == old(count) == |store.slots| && |closures| == |store.env| && count <= stack.Length
      ensures forall i :: 0 <= i < count ==> stack[i] == if i < count - |ws| then old(stack[i]) else ws[i - (count - |ws|)]
      ensures forall c, k :: 0 <= c < |closures| && 0 <= k < |closures[c]| ==> Reused(c, k, ws)
    {
      AllReadAfter(ws);
      hide Valid;
      hide ReadsAfter;
      Replace(ws);
    }

    /** A closure of a dropped variable reads what now is in its slot; any other closure
        reads its variable. */
    ghost predicate Reused(c: nat, k: nat, ws: seq<Value>)
      requires c < |closures| && k < |closures[c]| && |closures| == |store.env| && |ws| <= |store.slots|
      reads this, closures[c][k], if closures[c][k].location.InStack? then {closures[c][k].location.buffer} else {}
    {
      var from, u := |store.slots| - |ws|, closures[c][k];
      && k < |store.env[c]|
      && (forall i :: from <= i < |store.slots| && store.slots[i] == store.env[c][k] ==> u.Reads() == ws[i - from])
      && (store.env[c][k] !in store.slots[from..] ==> u.Reads() == store.Read(store.env[c][k]))
    }

    /** Pointers into the stack point below its top. */
    lemma Pointed()
      requires Valid()
      ensures forall u <- upvalues :: u.location.InStack? ==> u.location.buffer == stack && u.location.slot < count <= stack.Length
    {
      forall u <- upvalues ensures u.location.InStack? ==> u.location.buffer == stack && u.location.slot < count <= stack.Length {
        UpvaluePlace(u);
      }
    }

    /** Every closure would read its variables. */
    ghost predicate ReadRight(ws: seq<Value>)
      reads this, stack, upvalues
    {
      Valid() && |ws| <= count &&
      forall c, k :: 0 <= c < |closures| && 0 <= k < |closures[c]| ==> ReadsAfter(closures[c][k], count - |ws|, ws) == store.Read(store.env[c][k])
    }

    /** The captured ones of the dropped variables happen to have the new values. */
    ghost predicate SameWhereCaptured(ws: seq<Value>)
      requires store.Sound()
      reads this
    {
      |ws| <= |store.slots| &&
      var from := |store.slots| - |ws|;
      forall i :: from <= i < |store.slots| && store.Captured(store.slots[i]) ==> ws[i - from] == store.Read(store.slots[i])
    }

    /** A closure of a dropped variable reads what comes next in its slot; any other
        closure reads its variable. */
    lemma ClosureReadsAfter(c: nat, k: nat, ws: seq<Value>)
      requires Valid() && |ws| <= count && c < |closures| && k < |closures[c]|
      ensures c < |store.env| && k < |store.env[c]|
      ensures
        var from := count - |ws|;
        && (forall i :: from <= i < count && store.slots[i] == store.env[c][k] ==> ReadsAfter(closures[c][k], from, ws) == ws[i - from])
        && (store.env[c][k] !in store.slots[from..] ==> ReadsAfter(closures[c][k], from, ws) == store.Read(store.env[c][k]))
    {
      var from, u := count - |ws|, closures[c][k];
      UpvaluesRead(c, k);
      UpvaluePlace(u);
      forall i | from <= i < count && store.slots[i] == store.env[c][k] ensures ReadsAfter(u, from, ws) == ws[i - from] {
        LiveIsOpen(u, i);
      }
      if u.location.InStack? && u.location.slot >= from {
        assert store.slots[from..][u.location.slot - from] == store.env[c][k];
      }
    }

    lemma AllReadAfter(ws: seq<Value>)
      requires Valid() && |ws| <= count
      ensures |closures| == |store.env| && count == |store.slots|
      ensures forall c, k :: 0 <= c < |closures| && 0 <= k < |closures[c]| ==>
        var from := count - |ws|;
        && closures[c][k] in upvalues && k < |store.env[c]|
        && (forall i :: from <= i < count && store.slots[i] == store.env[c][k] ==> ReadsAfter(closures[c][k], from, ws) == ws[i - from])
        && (store.env[c][k] !in store.slots[from..] ==> ReadsAfter(closures[c][k], from, ws) == store.Read(store.env[c][k]))
    {
      AllKnown();
      StackSize();
      forall c, k | 0 <= c < |closures| && 0 <= k < |closures[c]|
        ensures
          var from := count - |ws|;
          && (forall i :: from <= i < count && store.slots[i] == store.env[c][k] ==> ReadsAfter(closures[c][k], from, ws) == ws[i - from])
          && (store.env[c][k] !in store.slots[from..] ==> ReadsAfter(closures[c][k], from, ws) == store.Read(store.env[c][k]))
      {
        ClosureReadsAfter(c, k, ws);
      }
    }

    /** All closures read right if and only if what was captured is followed by the same
        value. */
    lemma ReuseIsSafe(ws: seq<Value>)
      requires Valid() && |ws| <= count
      ensures store.Sound() && (ReadRight(ws) <==> SameWhereCaptured(ws))
    {
      hide ChainedIn;
      hide FramesAgree;
      hide Unique;
      hide OnlyCaptured;
      hide OpenAgree;
      hide ClosedAgree;
      hide StackAgrees;
      hide Store.Sound;
      hide ReadsAfter;
      var from := count - |ws|;
      if ReadRight(ws) {
        forall i | from <= i < |store.slots| && store.Captured(store.slots[i]) ensures ws[i - from] == store.Read(store.slots[i]) {
          var c, k :| 0 <= c < |store.env| && 0 <= k < |store.env[c]| && store.env[c][k] == store.slots[i];
          ClosureReadsAfter(c, k, ws);
        }
      }
      if SameWhereCaptured(ws) {
        forall c, k | 0 <= c < |closures| && 0 <= k < |closures[c]|
          ensures ReadsAfter(closures[c][k], from, ws) == store.Read(store.env[c][k])
        {
          ClosureReadsAfter(c, k, ws);
          var cell := store.env[c][k];
          if cell in store.slots[from..] {
            var i :| 0 <= i < |ws| && store.slots[from..][i] == cell;
            assert store.slots[from + i] == cell && store.Captured(cell);
          }
        }
      }
    }

    /** Plain POPs of the top `n` slots are safe, whatever comes next, if and only if no
        closure captured one of them. */
    lemma PopIsSafe(n: nat)
      requires Valid() && n <= count
      ensures store.Sound() && n <= |store.slots|
      ensures
        (forall ws: seq<Value> :: |ws| == n ==> ReadRight(ws))
        <==> forall i :: |store.slots| - n <= i < |store.slots| ==> !store.Captured(store.slots[i])
    {
      hide ReadRight;
      hide Store.Captured;
      SoundStore();
      StackSize();
      var from := count - n;
      if i :| from <= i < count && store.Captured(store.slots[i]) {
        var other := if store.Read(store.slots[i]) == Data(0) then Data(1) else Data(0);
        var ws := seq(n, j requires 0 <= j < n => other);
        ReuseIsSafe(ws);
        assert ws[i - from] == other && !ReadRight(ws);
      } else {
        forall ws: seq<Value> | |ws| == n ensures ReadRight(ws) { ReuseIsSafe(ws); }
      }
    }

    /** One turn of a loop's body, ended by `continue`, or by `break` out of `while`: the
        locals declared since the loop's start are dropped with plain POPs, and what comes
        next reuses their slots. Closures read right if and only if those locals that a
        closure of this turn captured are followed by the same value. */
    method TurnAndReuse(ops: seq<Op>, ws: seq<Value>)
      requires Valid() && store.Sound() && LegalRun(store, ops, round) && |ApplyAll(store, ops, round).slots| == |store.slots| + |ws|
      modifies this, stack, upvalues
      ensures old(store).Sound() && RoundsUp(round) && LegalRun(old(store), ops, round) && store == ApplyAll(old(store), ops, round)
      ensures
        (forall c, k :: 0 <= c < |closures| && 0 <= k < |closures[c]| ==>
           c < |store.env| && k < |store.env[c]| && closures[c][k].Reads() == store.Read(store.env[c][k]))
        <==> forall i :: |old(store).slots| <= i < |store.slots| && CapturedDuring(old(store), ops, store.slots[i], round) ==>
               ws[i - |old(store).slots|] == store.Read(store.slots[i])
    {
      hide LegalRun;
      hide ApplyAll;
      hide CapturedDuring;
      hide ReadsAfter;
      hide Store.Sound;
      hide Store.Captured;
      hide Valid;
      hide ReadRight;
      hide SameWhereCaptured;
      ghost var s := store;
      NotEmpty();
      Run(ops);
      SoundStore();
      StackSize();
      ReuseIsSafe(ws);
      SameDuring(s, ops, ws);
      AllKnown();
      RightMeans(ws);
      Replace(ws);
    }

    lemma NotEmpty()
      requires Valid()
      ensures |store.slots| > 0 && RoundsUp(round)
    {
      HasFrame(store);
    }

    lemma RightMeans(ws: seq<Value>)
      requires Valid() && |ws| <= count
      ensures |closures| == |store.env|
      ensures ReadRight(ws) <==>
        forall c, k :: 0 <= c < |closures| && 0 <= k < |closures[c]| ==>
          c < |store.env| && k < |store.env[c]| && ReadsAfter(closures[c][k], count - |ws|, ws) == store.Read(store.env[c][k])
    {
      AllKnown();
      hide Valid;
      hide ReadsAfter;
    }

    lemma SameDuring(s: Store, ops: seq<Op>, ws: seq<Value>)
      requires s.Sound() && RoundsUp(round) && LegalRun(s, ops, round) && store == ApplyAll(s, ops, round)
      requires |store.slots| == |s.slots| + |ws|
      ensures store.Sound()
      ensures SameWhereCaptured(ws) <==>
        forall i :: |s.slots| <= i < |store.slots| && CapturedDuring(s, ops, store.slots[i], round) ==> ws[i - |s.slots|] == store.Read(store.slots[i])
    {
      hide LegalRun;
      hide ApplyAll;
      hide CapturedDuring;
      hide Store.Sound;
      hide Store.Captured;
      forall i | |s.slots| <= i < |store.slots|
        ensures store.Captured(store.slots[i]) <==> CapturedDuring(s, ops, store.slots[i], round)
      {
        CapturedSince(s, ops, i, round);
      }
    }

    lemma StackHolds(i: nat)
      requires Valid() && i < count
      ensures i < |store.slots| && i < stack.Length && stack[i] == store.Read(store.slots[i])
    {
    }

    lemma AllKnown()
      requires Valid()
      ensures |closures| == |store.env| && forall c :: 0 <= c < |closures| ==> |closures[c]| == |store.env[c]|
      ensures forall c, k :: 0 <= c < |closures| && 0 <= k < |closures[c]| ==> closures[c][k] in upvalues
    {
    }
  }

  /** A script with two local variables. */
  method TwoLocals(a: Value, v: Value) returns (vm: VM)
    ensures fresh(vm) && fresh(vm.stack) && fresh(vm.upvalues) && vm.Valid()
    ensures vm.store == Store([Function(0), a, v], [0, 1, 2], [Frame(0, 0)], [[]], 8)
  {
    hide VM.Valid;
    hide Store.Sound;
    vm := new VM(8, n => n);
    vm.StackSize();
    vm.Push(a);
    vm.StackSize();
    vm.Push(v);
  }

  /** The store while a closure over the second local is stored in the first. */
  function Storing(a: Value, v: Value): Store {
    Store([Function(0), a, v, Function(1)], [0, 1, 2, 3], [Frame(0, 0)], [[], [2]], 8)
  }

  lemma CaptureSlotTwo(s: Store, a: Value, v: Value, round: nat -> nat)
    requires s == Store([Function(0), a, v], [0, 1, 2], [Frame(0, 0)], [[]], 8)
    ensures s.Sound() && Legal(s, Op.MakeClosure([Capture(true, 2)]))
    ensures Apply(s, Op.MakeClosure([Capture(true, 2)]), round) == Storing(a, v)
  {
    var t := s.Push(Function(1));
    assert t.CapturedCell(Capture(true, 2)) == 2;
    assert t.Captures([Capture(true, 2)]) == [2];
  }

  lemma StoreAndDrop(a: Value, v: Value, round: nat -> nat)
    ensures Storing(a, v).Sound() && Legal(Storing(a, v), Op.SetLocal(1))
    ensures Apply(Storing(a, v), Op.SetLocal(1), round) == Storing(Function(1), v)
    ensures Storing(Function(1), v).Sound() && Legal(Storing(Function(1), v), Op.Pop)
    ensures Storing(Function(1), v).Cut(3) == Store([Function(0), Function(1), v, Function(1)], [0, 1, 2], [Frame(0, 0)], [[], [2]], 8)
  {
    var s := Storing(a, v);
    assert s.Peek(0) == Function(1);
    assert s.Write(1, Function(1)) == Storing(Function(1), v);
    assert !CapturedIn([[], [2]], 3);
  }

  /** A function stored in an outer variable captures a local of a loop's body, and
      `continue` drops the local with a plain POP: the function reads what the next turn
      puts there, while its variable still has its value. */
  method ContinueOverCaptured(v: Value, w: Value) returns (vm: VM, u: Upvalue)
    ensures vm.closures == [[], [u]] && vm.count == 3 <= vm.stack.Length && vm.stack[1] == Function(1)
    ensures vm.store.env == [[], [2]] && vm.store.slots == [0, 1, 2] && vm.store.Read(2) == v
    ensures u.Reads() == w && (u.Reads() == vm.store.Read(2) <==> w == v)
  {
    hide VM.Valid;
    hide Store.Sound;
    hide Legal;
    hide Apply;
    vm := TwoLocals(Data(0), v);
    CaptureSlotTwo(vm.store, Data(0), v, vm.round);
    vm.DoClosure([Capture(true, 2)]);
    StoreAndDrop(Data(0), v, vm.round);
    vm.SetLocal(1);
    var _ := vm.Pop();
    vm.StackSize();
    vm.StackHolds(1);
    vm.AllKnown();
    u := vm.closures[1][0];
    assert |vm.store.env[0]| == 0 && |vm.store.env[1]| == 1;
    assert vm.closures[0] == [] && vm.closures[1] == [u];
    assert vm.closures == [[], [u]];
    vm.Reuse([w]);
    assert vm.Reused(1, 0, [w]) && vm.store.slots[2] == vm.store.env[1][0];
  }
}
