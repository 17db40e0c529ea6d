/** Programs that allocate, store and load: whether and when a collection runs makes no
    difference to what they see. */
module Mutator {
  import opened Collector
  import HashMaps
  import Interning

  // ----- the program's own view: nothing is ever freed -----

  datatype Seen = Number(i: int) | Object(id: nat)

  datatype Record = Record(kind: Kind, chars: string, fields: seq<Seen>)

  /** All objects ever made, in order, the stack and the globals. */
  datatype World = World(objects: seq<Record>, stack: seq<Seen>, globals: seq<Seen>)
  {
    function Push(v: Seen): World { this.(stack := stack + [v]) }

    function Add(r: Record): World {
      this.(objects := objects + [r], stack := stack + [Object(|objects|)])
    }

    function With(id: nat, fields: seq<Seen>): World {
      if id < |objects| then this.(objects := objects[id := objects[id].(fields := fields)]) else this
    }
  }

  /** Stack positions say which object a program changes or reads, and what it stores. */
  datatype Step =
    | MakeString(chars: string) | MakeObject(kind: Kind) | PushCopy(i: nat) | Drop
    | Store(i: nat, j: nat) | Link(i: nat, j: nat) | Load(i: nat, k: nat)
    | DefineGlobal(j: nat) | SetGlobal(g: nat, j: nat) | GetGlobal(g: nat) | Collect

  /** The string with these characters: the first such object, or none. */
  function StringId(objects: seq<Record>, chars: string): (id: nat)
    ensures id <= |objects|
    ensures id < |objects| ==> objects[id].kind.StringKind? && objects[id].chars == chars
    ensures forall i :: 0 <= i < id ==> !(objects[i].kind.StringKind? && objects[i].chars == chars)
  {
    if objects == [] then 0
    else if objects[0].kind.StringKind? && objects[0].chars == chars then 0
    else 1 + StringId(objects[1..], chars)
  }

  /** A function gets one more constant, an upvalue another value, and a closure one more
      upvalue if the value is an object. */
  function Stored(kind: Kind, fields: seq<Seen>, v: Seen): seq<Seen> {
    match kind
    case FunctionKind => fields + [v]
    case UpvalueKind => [v]
    case ClosureKind => if v.Object? then fields + [v] else fields
    case NativeKind => fields
    case StringKind => fields
  }

  /** The first field of a closure is its function, and of a function its name. */
  function Headed(kind: Kind, fields: seq<Seen>, v: Seen): seq<Seen> {
    if (kind.ClosureKind? || kind.FunctionKind?) && fields != [] && v.Object? then fields[0 := v] else fields
  }

  /** What each step means. What it cannot do is left undone; a collection means nothing. */
  function StringMade(w: World, chars: string): World {
    var id := StringId(w.objects, chars);
    if id < |w.objects| then w.Push(Object(id)) else w.Add(Record(StringKind, chars, []))
  }

  function NewRecord(kind: Kind): Record {
    Record(kind, "", if kind.NativeKind? || kind.StringKind? then [] else [Number(0)])
  }

  function ObjectMade(w: World, kind: Kind): World {
    if kind.StringKind? then w else w.Add(NewRecord(kind))
  }

  function StoredTo(w: World, i: nat, j: nat): World {
    if i < |w.stack| && j < |w.stack| && w.stack[i].Object? && w.stack[i].id < |w.objects| then
      var o := w.objects[w.stack[i].id];
      w.With(w.stack[i].id, Stored(o.kind, o.fields, w.stack[j]))
    else w
  }

  function LinkedTo(w: World, i: nat, j: nat): World {
    if i < |w.stack| && j < |w.stack| && w.stack[i].Object? && w.stack[i].id < |w.objects| then
      var o := w.objects[w.stack[i].id];
      w.With(w.stack[i].id, Headed(o.kind, o.fields, w.stack[j]))
    else w
  }

  function LoadedFrom(w: World, i: nat, k: nat): World {
    if i < |w.stack| && w.stack[i].Object? && w.stack[i].id < |w.objects| && k < |w.objects[w.stack[i].id].fields|
    then w.Push(w.objects[w.stack[i].id].fields[k])
    else w
  }

  function Advance(w: World, m: Step): World {
    match m
    case MakeString(chars) => StringMade(w, chars)
    case MakeObject(kind) => ObjectMade(w, kind)
    case PushCopy(i) => if i < |w.stack| then w.Push(w.stack[i]) else w
    case Drop => if w.stack == [] then w else w.(stack := w.stack[..|w.stack| - 1])
    case Store(i, j) => StoredTo(w, i, j)
    case Link(i, j) => LinkedTo(w, i, j)
    case Load(i, k) => LoadedFrom(w, i, k)
    case DefineGlobal(j) => if j < |w.stack| then w.(globals := w.globals + [w.stack[j]]) else w
    case SetGlobal(g, j) => if g < |w.globals| && j < |w.stack| then w.(globals := w.globals[g := w.stack[j]]) else w
    case GetGlobal(g) => if g < |w.globals| then w.Push(w.globals[g]) else w
    case Collect => w
  }

  function AdvanceAll(w: World, program: seq<Step>): World
    decreases |program|
  {
    if program == [] then w else Advance(AdvanceAll(w, program[..|program| - 1]), program[|program| - 1])
  }

  // ----- the heap as the program sees it -----

  function See(v: Value, ids: map<Obj, nat>): Seen {
    match v
    case Data(i) => Number(i)
    case Ref(o) => if o in ids then Object(ids[o]) else Number(0)
  }

  function SeeAll(vs: seq<Value>, ids: map<Obj, nat>): (s: seq<Seen>)
    ensures |s| == |vs|
  {
    seq(|vs|, i requires 0 <= i < |vs| => See(vs[i], ids))
  }

  ghost predicate Identified(vs: seq<Value>, ids: map<Obj, nat>) {
    forall v <- vs :: v.Ref? ==> v.obj in ids
  }

  function AsValue(o: Obj?): Value { if o == null then Data(0) else Ref(o) }

  function AsValues(us: seq<Obj?>): (vs: seq<Value>)
    ensures |vs| == |us|
  {
    seq(|us|, i requires 0 <= i < |us| => AsValue(us[i]))
  }

  /** The fields a program stores to and loads from. */
  function FieldsOf(o: Obj): seq<Value>
    reads o`function_, o`name, o`constants, o`closed, o`upvalues
  {
    match o.kind
    case FunctionKind => [AsValue(o.name)] + o.constants
    case UpvalueKind => [o.closed]
    case ClosureKind => [AsValue(o.function_)] + AsValues(o.upvalues)
    case NativeKind => []
    case StringKind => []
  }

  ghost predicate Mirrored(o: Obj, ids: map<Obj, nat>, objects: seq<Record>)
    reads o`function_, o`name, o`constants, o`closed, o`upvalues
  {
    && o in ids && ids[o] < |objects| && Identified(FieldsOf(o), ids)
    && objects[ids[o]] == Record(o.kind, o.chars, SeeAll(FieldsOf(o), ids))
  }

  ghost predicate MirroredAll(all: set<Obj>, ids: map<Obj, nat>, objects: seq<Record>)
    reads all`function_, all`name, all`constants, all`closed, all`upvalues
  {
    forall o <- all :: Mirrored(o, ids, objects)
  }

  ghost predicate Injective(all: set<Obj>, ids: map<Obj, nat>) {
    forall a <- all, b <- all :: a in ids && b in ids && ids[a] == ids[b] ==> a == b
  }

  ghost predicate StringsOnce(objects: seq<Record>) {
    && (forall i :: 0 <= i < |objects| && objects[i].kind.StringKind? ==> objects[i].fields == [])
    && forall i, j :: 0 <= i < j < |objects| && objects[i].kind.StringKind? && objects[j].kind.StringKind? ==>
         objects[i].chars != objects[j].chars
  }

  lemma SeeMore(vs: seq<Value>, ids: map<Obj, nat>, r: Obj, id: nat)
    requires Identified(vs, ids) && r !in ids
    ensures Identified(vs, ids[r := id]) && SeeAll(vs, ids[r := id]) == SeeAll(vs, ids)
  {
  }

  lemma SeeAt(vs: seq<Value>, i: nat, ids: map<Obj, nat>)
    requires i < |vs| && Identified(vs, ids)
    ensures SeeAll(vs, ids)[i] == See(vs[i], ids) && (vs[i].Ref? ==> vs[i].obj in ids)
  {
  }

  lemma SeePushed(vs: seq<Value>, v: Value, ids: map<Obj, nat>)
    ensures SeeAll(vs + [v], ids) == SeeAll(vs, ids) + [See(v, ids)]
    ensures Identified(vs, ids) && (v.Ref? ==> v.obj in ids) ==> Identified(vs + [v], ids)
  {
  }

  /** An object that is new to the program, or one that was freed and is made again. */
  lemma MirroredMore(all: set<Obj>, ids: map<Obj, nat>, objects: seq<Record>, r: Obj, id: nat, more: seq<Record>)
    requires MirroredAll(all - {r}, ids, objects) && Injective(all - {r}, ids) && r !in ids
    requires forall o <- all - {r} :: o in ids ==> ids[o] != id
    requires objects <= more && id < |more| && more[id] == Record(r.kind, r.chars, SeeAll(FieldsOf(r), ids[r := id]))
    requires Identified(FieldsOf(r), ids[r := id])
    ensures MirroredAll(all, ids[r := id], more) && Injective(all, ids[r := id])
  {
    forall o <- all ensures Mirrored(o, ids[r := id], more) {
      if o != r {
        assert Mirrored(o, ids, objects);
        SeeMore(FieldsOf(o), ids, r, id);
      }
    }
  }

  lemma MirroredAt(all: set<Obj>, ids: map<Obj, nat>, objects: seq<Record>, o: Obj)
    requires MirroredAll(all, ids, objects) && o in all
    ensures Mirrored(o, ids, objects)
  {
  }

  lemma FewerObjects(all: set<Obj>, some: set<Obj>, ids: map<Obj, nat>, objects: seq<Record>)
    requires MirroredAll(all, ids, objects) && Injective(all, ids) && some <= all
    ensures MirroredAll(some, ids, objects) && Injective(some, ids)
  {
  }

  lemma StringFound(ids: map<Obj, nat>, objects: seq<Record>, r: Obj)
    requires Mirrored(r, ids, objects) && StringsOnce(objects) && r.kind.StringKind?
    ensures StringId(objects, r.chars) == ids[r]
  {
  }

  function MoreStrings(objects: seq<Record>, chars: string): (more: seq<Record>)
    ensures StringId(objects, chars) < |more|
  {
    if StringId(objects, chars) < |objects| then objects else objects + [Record(StringKind, chars, [])]
  }

  lemma MirroredString(all: set<Obj>, ids: map<Obj, nat>, objects: seq<Record>, r: Obj)
    requires MirroredAll(all - {r}, ids, objects) && Injective(all - {r}, ids) && StringsOnce(objects)
    requires r !in ids && r.kind.StringKind? && forall s <- all - {r} :: s.kind.StringKind? ==> s.chars != r.chars
    ensures
      var id, more := StringId(objects, r.chars), MoreStrings(objects, r.chars);
      MirroredAll(all, ids[r := id], more) && Injective(all, ids[r := id]) && StringsOnce(more)
  {
    var id, more := StringId(objects, r.chars), MoreStrings(objects, r.chars);
    forall o <- all - {r} ensures o in ids && ids[o] != id { assert Mirrored(o, ids, objects); }
    MirroredMore(all, ids, objects, r, id, more);
  }

  lemma MirroredOther(all: set<Obj>, ids: map<Obj, nat>, objects: seq<Record>, r: Obj)
    requires MirroredAll(all - {r}, ids, objects) && Injective(all - {r}, ids) && StringsOnce(objects)
    requires r !in ids && !r.kind.StringKind? && r.chars == "" && r.constants == [] && r.closed == Data(0) && r.upvalues == []
    requires r.function_ == null && r.name == null
    ensures
      var id, more := |objects|, objects + [NewRecord(r.kind)];
      MirroredAll(all, ids[r := id], more) && Injective(all, ids[r := id]) && StringsOnce(more)
  {
    var id, more := |objects|, objects + [NewRecord(r.kind)];
    forall o <- all - {r} ensures o in ids && ids[o] != id { assert Mirrored(o, ids, objects); }
    MirroredMore(all, ids, objects, r, id, more);
  }

  function StoredValues(kind: Kind, fields: seq<Value>, v: Value): seq<Value> {
    match kind
    case FunctionKind => fields + [v]
    case UpvalueKind => [v]
    case ClosureKind => if v.Ref? then fields + [v] else fields
    case NativeKind => fields
    case StringKind => fields
  }

  lemma SeeStored(kind: Kind, fields: seq<Value>, v: Value, ids: map<Obj, nat>)
    requires Identified(fields, ids) && (v.Ref? ==> v.obj in ids)
    ensures Identified(StoredValues(kind, fields, v), ids)
    ensures SeeAll(StoredValues(kind, fields, v), ids) == Stored(kind, SeeAll(fields, ids), See(v, ids))
  {
    SeePushed(fields, v, ids);
  }

  function HeadedValues(kind: Kind, fields: seq<Value>, v: Value): seq<Value> {
    if (kind.ClosureKind? || kind.FunctionKind?) && fields != [] && v.Ref? then fields[0 := v] else fields
  }

  lemma SeeHeaded(kind: Kind, fields: seq<Value>, v: Value, ids: map<Obj, nat>)
    requires Identified(fields, ids) && (v.Ref? ==> v.obj in ids)
    ensures Identified(HeadedValues(kind, fields, v), ids)
    ensures SeeAll(HeadedValues(kind, fields, v), ids) == Headed(kind, SeeAll(fields, ids), See(v, ids))
  {
  }

  lemma MirroredStored(all: set<Obj>, ids: map<Obj, nat>, objects: seq<Record>, o: Obj, fields: seq<Seen>)
    requires o in all && MirroredAll(all - {o}, ids, objects) && Injective(all, ids) && StringsOnce(objects)
    requires o in ids && ids[o] < |objects| && objects[ids[o]].kind == o.kind && objects[ids[o]].chars == o.chars
    requires Identified(FieldsOf(o), ids) && fields == SeeAll(FieldsOf(o), ids) && (o.kind.StringKind? ==> fields == [])
    ensures
      var more := objects[ids[o] := objects[ids[o]].(fields := fields)];
      MirroredAll(all, ids, more) && StringsOnce(more)
  {
    var more := objects[ids[o] := objects[ids[o]].(fields := fields)];
    forall a <- all ensures Mirrored(a, ids, more) {
      if a != o {
        assert a in all - {o};
        assert Mirrored(a, ids, objects) && ids[a] != ids[o];
      }
    }
  }

  /** A program: a heap with its string table, and how the program sees it. Objects keep
      their identities, and a string that is made again after it was freed gets its own
      back. */
  class Program {
    const vm: Interning.VM
    ghost var ids: map<Obj, nat>
    ghost var world: World

    ghost predicate Sees()
      reads this, vm.heap, vm.heap.all
    {
      && MirroredAll(vm.heap.all, ids, world.objects) && Injective(vm.heap.all, ids) && StringsOnce(world.objects)
      && Identified(vm.heap.stack, ids) && world.stack == SeeAll(vm.heap.stack, ids)
      && Identified(vm.heap.globalValues, ids) && world.globals == SeeAll(vm.heap.globalValues, ids)
    }

    ghost predicate Valid()
      reads this, vm.heap, vm.heap.all, vm.strings, vm.strings.slots
    {
      vm.Valid() && Sees()
    }

    constructor (hashOf: string -> nat)
      ensures Valid() && world == World([], [], []) && fresh(vm) && fresh(vm.heap) && fresh(vm.strings) && fresh(vm.strings.slots)
    {
      vm := new Interning.VM(hashOf);
      ids, world := map[], World([], [], []);
    }

    method PushString(chars: string)
      requires Valid()
      modifies this, vm.heap, vm.heap.all`isMarked, vm.heap.all`nextObject, vm.strings, vm.strings.slots
      ensures Valid() && world == StringMade(old(world), chars)
      ensures fresh(vm.heap.all - old(vm.heap.all)) && (vm.strings.slots == old(vm.strings.slots) || fresh(vm.strings.slots))
    {
      hide Interning.VM.Valid;
      hide StringId;
      hide SeeAll;
      hide Identified;
      hide Injective;
      hide StringsOnce;
      hide MirroredAll;
      ghost var all := vm.heap.all;
      ghost var stack := vm.heap.stack;
      var r := vm.PushString(chars);
      ghost var id := StringId(world.objects, chars);
      if r in all {
        MirroredAt(all, ids, world.objects, r);
        StringFound(ids, world.objects, r);
        FewerObjects(all, vm.heap.all, ids, world.objects);
        world := world.Push(Object(id));
      } else {
        FewerObjects(all, vm.heap.all - {r}, ids, world.objects);
        MirroredString(vm.heap.all, ids, world.objects, r);
        SeeMore(stack, ids, r, id);
        SeeMore(vm.heap.globalValues, ids, r, id);
        ids := ids[r := id];
        world := world.(objects := MoreStrings(world.objects, chars), stack := world.stack + [Object(id)]);
      }
      SeePushed(stack, Ref(r), ids);
    }

    method PushObject(kind: Kind)
      requires Valid()
      modifies this, vm.heap, vm.heap.all`isMarked, vm.heap.all`nextObject, vm.strings.slots
      ensures Valid() && world == ObjectMade(old(world), kind)
      ensures fresh(vm.heap.all - old(vm.heap.all))
    {
      hide Interning.VM.Valid;
      hide StringsOnce;
      hide Injective;
      hide Identified;
      hide SeeAll;
      hide MirroredAll;
      if kind.StringKind? { return; }
      ghost var all := vm.heap.all;
      ghost var stack := vm.heap.stack;
      var r := vm.PushObject(kind);
      FewerObjects(all, vm.heap.all - {r}, ids, world.objects);
      ghost var id := |world.objects|;
      MirroredOther(vm.heap.all, ids, world.objects, r);
      SeeMore(stack, ids, r, id);
      SeeMore(vm.heap.globalValues, ids, r, id);
      ids := ids[r := id];
      SeePushed(stack, Ref(r), ids);
      world := world.Add(NewRecord(kind));
    }

    method PushCopy(i: nat)
      requires Valid()
      modifies this`world, vm.heap`stack
      ensures Valid() && world == Advance(old(world), Step.PushCopy(i))
    {
      hide Interning.VM.Valid;
      hide MirroredAll;
      hide Injective;
      hide StringsOnce;
      hide SeeAll;
      if i < |vm.heap.stack| {
        SeeAt(vm.heap.stack, i, ids);
        vm.StackValue(i);
        PushValue(vm.heap.stack[i]);
      }
    }

    method PushValue(v: Value)
      requires Valid() && Refs([v]) <= vm.heap.all
      modifies this`world, vm.heap`stack
      ensures Valid() && world == old(world).Push(See(v, ids))
    {
      hide Interning.VM.Valid;
      assert v.Ref? ==> v.obj in Refs([v]);
      assert v.Ref? ==> Mirrored(v.obj, ids, world.objects);
      SeePushed(vm.heap.stack, v, ids);
      vm.Push(v);
      world := world.Push(See(v, ids));
    }

    method Drop()
      requires Valid()
      modifies this`world, vm.heap`stack
      ensures Valid() && world == Advance(old(world), Step.Drop)
    {
      hide Interning.VM.Valid;
      hide StringsOnce;
      hide Injective;
      if vm.heap.stack != [] {
        var _ := vm.Pop();
        world := world.(stack := world.stack[..|world.stack| - 1]);
      }
    }

    method StoreField(i: nat, j: nat)
      requires Valid()
      modifies this`world, vm.heap.all`constants, vm.heap.all`closed, vm.heap.all`upvalues
      ensures Valid() && world == StoredTo(old(world), i, j)
    {
      hide Interning.VM.Valid;
      hide SeeAll;
      hide StringsOnce;
      hide Injective;
      hide MirroredAll;
      hide Identified;
      hide Stored;
      hide StoredValues;
      hide FieldsOf;
      if i < |vm.heap.stack| && j < |vm.heap.stack| {
        SeeAt(vm.heap.stack, i, ids);
        SeeAt(vm.heap.stack, j, ids);
        if vm.heap.stack[i].Ref? {
          vm.OnStack(i);
          vm.StackValue(j);
          StoreTo(vm.heap.stack[i].obj, vm.heap.stack[j]);
        }
      }
    }

    method StoreTo(o: Obj, v: Value)
      requires Valid() && o in vm.heap.all && Refs([v]) <= vm.heap.all && (v.Ref? ==> v.obj in ids)
      modifies this`world, o`constants, o`closed, o`upvalues
      ensures Valid() && o in ids && ids[o] < |old(world).objects|
      ensures
        var was := old(world).objects[ids[o]];
        world == old(world).With(ids[o], Stored(was.kind, was.fields, See(v, ids)))
    {
      hide Interning.VM.Valid;
      hide SeeAll;
      hide StringsOnce;
      hide Injective;
      hide Identified;
      hide Stored;
      assert Mirrored(o, ids, world.objects);
      ghost var fields, all := FieldsOf(o), vm.heap.all;
      FewerObjects(all, all - {o}, ids, world.objects);
      hide MirroredAll;
      vm.Store(o, v);
      assert FieldsOf(o) == StoredValues(o.kind, fields, v);
      hide FieldsOf;
      hide StoredValues;
      SeeStored(o.kind, fields, v, ids);
      MirroredStored(all, ids, world.objects, o, SeeAll(FieldsOf(o), ids));
      world := world.With(ids[o], Stored(o.kind, world.objects[ids[o]].fields, See(v, ids)));
    }

    method LinkFields(i: nat, j: nat)
      requires Valid()
      modifies this`world, vm.heap.all`function_, vm.heap.all`name
      ensures Valid() && world == LinkedTo(old(world), i, j)
    {
      hide Interning.VM.Valid;
      hide SeeAll;
      hide StringsOnce;
      hide Injective;
      hide MirroredAll;
      hide Identified;
      hide HeadedValues;
      hide FieldsOf;
      if i < |vm.heap.stack| && j < |vm.heap.stack| {
        SeeAt(vm.heap.stack, i, ids);
        SeeAt(vm.heap.stack, j, ids);
        if vm.heap.stack[i].Ref? {
          vm.OnStack(i);
          var o := vm.heap.stack[i].obj;
          if vm.heap.stack[j].Ref? {
            vm.OnStack(j);
            LinkTo(o, vm.heap.stack[j].obj);
          } else {
            MirroredAt(vm.heap.all, ids, world.objects, o);
          }
        }
      }
    }

    method SetHead(o: Obj, v: Obj)
      requires vm.Valid() && o in vm.heap.all && v in vm.heap.all
      modifies o`function_, o`name
      ensures vm.Valid() && FieldsOf(o) == HeadedValues(o.kind, old(FieldsOf(o)), Ref(v))
    {
      hide Interning.VM.Valid;
      assert Known([v]) <= vm.heap.all;
      vm.StoreHead(o, v);
    }

    method LinkTo(o: Obj, v: Obj)
      requires Valid() && o in vm.heap.all && v in vm.heap.all && v in ids
      modifies this`world, o`function_, o`name
      ensures Valid() && o in ids && ids[o] < |old(world).objects|
      ensures
        var was := old(world).objects[ids[o]];
        world == old(world).With(ids[o], Headed(was.kind, was.fields, Object(ids[v])))
    {
      hide Interning.VM.Valid;
      hide SeeAll;
      hide StringsOnce;
      hide Injective;
      hide Identified;
      hide Headed;
      assert Mirrored(o, ids, world.objects);
      ghost var fields, all := FieldsOf(o), vm.heap.all;
      FewerObjects(all, all - {o}, ids, world.objects);
      hide MirroredAll;
      hide FieldsOf;
      hide HeadedValues;
      SetHead(o, v);
      SeeHeaded(o.kind, fields, Ref(v), ids);
      MirroredStored(all, ids, world.objects, o, SeeAll(FieldsOf(o), ids));
      world := world.With(ids[o], Headed(o.kind, world.objects[ids[o]].fields, Object(ids[v])));
    }

    lemma FieldAt(o: Obj, k: nat)
      requires vm.Valid() && o in vm.heap.all && k < |FieldsOf(o)|
      ensures Refs([FieldsOf(o)[k]]) <= vm.heap.all
    {
      hide Interning.VM.Valid;
      vm.FieldKnown(o, FieldsOf(o)[k]);
    }

    method LoadField(i: nat, k: nat)
      requires Valid()
      modifies this`world, vm.heap`stack
      ensures Valid() && world == LoadedFrom(old(world), i, k)
    {
      hide Interning.VM.Valid;
      hide FieldsOf;
      hide SeeAll;
      hide StringsOnce;
      hide Injective;
      hide MirroredAll;
      hide Identified;
      if i < |vm.heap.stack| {
        SeeAt(vm.heap.stack, i, ids);
        if vm.heap.stack[i].Ref? {
          vm.OnStack(i);
          var o := vm.heap.stack[i].obj;
          MirroredAt(vm.heap.all, ids, world.objects, o);
          if k < |FieldsOf(o)| {
            SeeAt(FieldsOf(o), k, ids);
            FieldAt(o, k);
            PushValue(FieldsOf(o)[k]);
          }
        }
      }
    }

    /** A new global, in the next place. */
    method DefineGlobal(j: nat)
      requires Valid()
      modifies this`world, vm.heap`globalValues
      ensures Valid() && world == Advance(old(world), Step.DefineGlobal(j))
    {
      hide Interning.VM.Valid;
      hide MirroredAll;
      hide Injective;
      hide StringsOnce;
      hide SeeAll;
      if j < |vm.heap.stack| {
        SeeAt(vm.heap.stack, j, ids);
        vm.StackValue(j);
        SeePushed(vm.heap.globalValues, vm.heap.stack[j], ids);
        vm.AddGlobal(vm.heap.stack[j]);
        world := world.(globals := world.globals + [world.stack[j]]);
      }
    }

    method SetGlobal(g: nat, j: nat)
      requires Valid()
      modifies this`world, vm.heap`globalValues
      ensures Valid() && world == Advance(old(world), Step.SetGlobal(g, j))
    {
      hide Interning.VM.Valid;
      hide MirroredAll;
      hide Injective;
      hide StringsOnce;
      if g < |vm.heap.globalValues| && j < |vm.heap.stack| {
        SeeAt(vm.heap.stack, j, ids);
        vm.StackValue(j);
        vm.SetGlobal(g, vm.heap.stack[j]);
        world := world.(globals := world.globals[g := world.stack[j]]);
      }
    }

    method GetGlobal(g: nat)
      requires Valid()
      modifies this`world, vm.heap`stack
      ensures Valid() && world == Advance(old(world), Step.GetGlobal(g))
    {
      hide Interning.VM.Valid;
      hide MirroredAll;
      hide Injective;
      hide StringsOnce;
      hide SeeAll;
      if g < |vm.heap.globalValues| {
        SeeAt(vm.heap.globalValues, g, ids);
        vm.GlobalValue(g);
        PushValue(vm.heap.globalValues[g]);
      }
    }

    method CollectGarbage()
      requires Valid()
      modifies this, vm.heap, vm.heap.all`isMarked, vm.heap.all`nextObject, vm.strings.slots
      ensures Valid() && world == old(world) && vm.heap.all <= old(vm.heap.all)
    {
      hide Interning.Interned;
      hide Interning.Canonical;
      hide HashMaps.HashMap.Valid;
      hide HashMaps.HashMap.Contents;
      hide Heap.Valid;
      hide MirroredAll;
      hide Injective;
      hide StringsOnce;
      hide Heap.Roots;
      hide Heap.Edges;
      hide Collector.Reachable;
      hide Filter;
      ghost var all := vm.heap.all;
      vm.CollectGarbage({});
      FewerObjects(all, vm.heap.all, ids, world.objects);
    }

    method Execute(m: Step)
      requires Valid()
      modifies this, vm.heap, vm.heap.all, vm.strings, vm.strings.slots
      ensures Valid() && world == Advance(old(world), m)
      ensures fresh(vm.heap.all - old(vm.heap.all)) && (vm.strings.slots == old(vm.strings.slots) || fresh(vm.strings.slots))
    {
      hide Valid;
      hide StringMade;
      hide ObjectMade;
      hide StoredTo;
      hide LinkedTo;
      hide LoadedFrom;
      match m
      case MakeString(chars) => PushString(chars);
      case MakeObject(kind) => PushObject(kind);
      case PushCopy(i) => PushCopy(i);
      case Drop => Drop();
      case Store(i, j) => StoreField(i, j);
      case Link(i, j) => LinkFields(i, j);
      case Load(i, k) => LoadField(i, k);
      case DefineGlobal(j) => DefineGlobal(j);
      case SetGlobal(g, j) => SetGlobal(g, j);
      case GetGlobal(g) => GetGlobal(g);
      case Collect => CollectGarbage();
    }

    /** Over every run, collections at any allocation included, the program sees what it
        would see if nothing were ever freed; and strings with equal characters stay the
        same object. */
    method Run(program: seq<Step>)
      requires Valid()
      modifies this, vm.heap, vm.heap.all, vm.strings, vm.strings.slots
      ensures Valid() && world == AdvanceAll(old(world), program)
      ensures forall a <- Interning.StringsIn(vm.heap.all), b <- Interning.StringsIn(vm.heap.all) :: a == b <==> a.chars == b.chars
    {
      hide Valid;
      hide Advance;
      assert program[..0] == [];
      for i := 0 to |program|
        invariant Valid() && world == AdvanceAll(old(world), program[..i])
        invariant fresh(vm.heap.all - old(vm.heap.all)) && (vm.strings.slots == old(vm.strings.slots) || fresh(vm.strings.slots))
      {
        Execute(program[i]);
        assert program[..i + 1][..i] == program[..i];
      }
      assert program[..|program|] == program;
      Canonical();
    }

    lemma Canonical()
      requires Valid()
      ensures forall a <- Interning.StringsIn(vm.heap.all), b <- Interning.StringsIn(vm.heap.all) :: a == b <==> a.chars == b.chars
    {
      forall a <- Interning.StringsIn(vm.heap.all), b <- Interning.StringsIn(vm.heap.all) ensures a == b <==> a.chars == b.chars {
        vm.SamePointer(a, b);
      }
    }

    /** Comparing pointers on the stack is comparing identities. */
    lemma SameIdentity(i: nat, j: nat)
      requires Valid() && i < |vm.heap.stack| && j < |vm.heap.stack|
      ensures i < |world.stack| && j < |world.stack|
      ensures vm.heap.stack[i] == vm.heap.stack[j] <==> world.stack[i] == world.stack[j]
    {
      if vm.heap.stack[i].Ref? { vm.OnStack(i); }
      if vm.heap.stack[j].Ref? { vm.OnStack(j); }
      SeeAt(vm.heap.stack, i, ids);
      SeeAt(vm.heap.stack, j, ids);
    }
  }

  // ----- globals -----

  lemma {:induction false} GlobalStays(w: World, program: seq<Step>, g: nat)
    requires g < |w.globals| && forall m <- program :: !(m.SetGlobal? && m.g == g)
    ensures |w.globals| <= |AdvanceAll(w, program).globals| && AdvanceAll(w, program).globals[g] == w.globals[g]
    decreases |program|
  {
    if program != [] {
      var init, last := program[..|program| - 1], program[|program| - 1];
      GlobalStays(w, init, g);
      assert last in program;
      hide StringId;
    }
  }

  /** A load of a global gives what was last stored there, whatever came in between. */
  lemma LastStored(w: World, program: seq<Step>, g: nat, j: nat)
    requires g < |w.globals| && j < |w.stack| && forall m <- program :: !(m.SetGlobal? && m.g == g)
    ensures
      var stored := Advance(w, Step.SetGlobal(g, j));
      AdvanceAll(stored, program + [Step.GetGlobal(g)]) == AdvanceAll(stored, program).Push(w.stack[j])
  {
    var stored := Advance(w, Step.SetGlobal(g, j));
    GlobalStays(stored, program, g);
    assert (program + [Step.GetGlobal(g)])[..|program|] == program;
  }

  // ----- collections mean nothing -----

  function WithoutCollections(program: seq<Step>): seq<Step> {
    if program == [] then []
    else
      var rest := WithoutCollections(program[..|program| - 1]);
      if program[|program| - 1].Collect? then rest else rest + [program[|program| - 1]]
  }

  /** Two runs that differ only in when they collect come to the same. */
  lemma {:induction false} CollectionsUnseen(w: World, program: seq<Step>)
    ensures AdvanceAll(w, WithoutCollections(program)) == AdvanceAll(w, program)
    decreases |program|
  {
    if program != [] {
      var init, last := program[..|program| - 1], program[|program| - 1];
      CollectionsUnseen(w, init);
      var rest := WithoutCollections(init);
      assert (rest + [last])[..|rest|] == rest;
    }
  }
}
