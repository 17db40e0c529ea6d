/** Interned strings: a weak table of all string objects, kept canonical while the
    collector runs, even inside the table's own rehash. */
module Interning {
  import opened Bytecode
  import opened Collector
  import opened HashMaps
  import Bits

  const STORED_HASH: Obj -> nat := (o: Obj) => o.hash

  function StringsIn(all: set<Obj>): set<Obj> {
    set o | o in all && o.kind.StringKind?
  }

  /** The table holds the string objects of the heap, except for those still to be added. */
  ghost predicate Interned(keys: set<Obj>, all: set<Obj>, pending: set<Obj>) {
    keys == StringsIn(all) - pending && pending <= StringsIn(all)
  }

  /** Strings with equal characters are the same object. */
  ghost predicate Canonical(all: set<Obj>, hashOf: string -> nat) {
    && (forall a <- all, b <- all :: a.kind.StringKind? && b.kind.StringKind? && a.chars == b.chars ==> a == b)
    && (forall a <- all :: a.kind.StringKind? ==> a.hash == hashOf(a.chars))
  }

  lemma FewerStrings(keys: set<Obj>, all: set<Obj>, pending: set<Obj>, marked: set<Obj>, hashOf: string -> nat)
    requires Interned(keys, all, pending) && Canonical(all, hashOf) && marked <= all && pending <= marked
    ensures Interned(keys * marked, marked, pending) && Canonical(marked, hashOf)
  {
  }

  lemma OneMoreString(keys: set<Obj>, all: set<Obj>, r: Obj, hashOf: string -> nat)
    requires Interned(keys, all, {}) && Canonical(all, hashOf) && r !in all && r.kind.StringKind? && r.hash == hashOf(r.chars)
    requires forall s <- StringsIn(all) :: s.chars != r.chars
    ensures Interned(keys, all + {r}, {r}) && Canonical(all + {r}, hashOf)
  {
    forall a <- all + {r}, b <- all + {r} | a.kind.StringKind? && b.kind.StringKind? && a.chars == b.chars ensures a == b {
      assert a in all ==> a in StringsIn(all);
      assert b in all ==> b in StringsIn(all);
    }
  }

  lemma OtherObject(keys: set<Obj>, all: set<Obj>, r: Obj, hashOf: string -> nat)
    requires Interned(keys, all, {}) && Canonical(all, hashOf) && !r.kind.StringKind?
    ensures Interned(keys, all + {r}, {}) && Canonical(all + {r}, hashOf)
  {
  }

  lemma StringAdded(keys: set<Obj>, all: set<Obj>, s: Obj)
    requires Interned(keys, all, {s})
    ensures Interned(keys + {s}, all, {}) && s in StringsIn(all)
  {
  }

  class VM {
    const heap: Heap
    /** The weak table: keys only, which do not keep their strings alive. */
    const strings: HashMap<Obj, ()>
    const hashOf: string -> nat

    ghost function Keys(): set<Obj>
      reads strings, strings.slots
    {
      strings.Contents().Keys
    }

    ghost predicate Sound(pending: set<Obj>)
      reads heap, heap.all, strings, strings.slots
    {
      && heap.Valid() && strings.Valid() && strings.hash == STORED_HASH
      && Interned(Keys(), heap.all, pending) && Canonical(heap.all, hashOf)
    }

    ghost predicate Valid()
      reads heap, heap.all, strings, strings.slots
    {
      Sound({})
    }

    /** Two strings are the same pointer if and only if their characters are equal; and
        the table knows them. */
    lemma SamePointer(a: Obj, b: Obj)
      requires Valid() && a in StringsIn(heap.all) && b in StringsIn(heap.all)
      ensures a == b <==> a.chars == b.chars
      ensures a in Keys() && b in Keys()
    {
    }

    constructor (hashOf: string -> nat)
      ensures Valid() && heap.all == {} && heap.stack == [] && heap.globalValues == [] && this.hashOf == hashOf
      ensures fresh(heap) && fresh(strings) && fresh(strings.slots)
    {
      this.hashOf := hashOf;
      heap := new Heap();
      strings := new HashMap<Obj, ()>(STORED_HASH);
    }

    // ----- the weak table -----

    /** Erases the keys that are not marked, while iterating over the table. */
    method TableRemoveWhite(ghost all: set<Obj>)
      requires strings.Valid() && Keys() <= all
      modifies strings.slots
      ensures strings.Valid() && Keys() == set k | k in old(Keys()) && k.isMarked
    {
      hide HashMap.Valid;
      hide HashMap.Contents;
      ghost var keys := Keys();
      for i := 0 to strings.slots.Length
        invariant strings.Valid() && Keys() <= keys <= all
        invariant forall k <- all :: k.isMarked && k in keys ==> k in Keys()
        invariant forall j :: 0 <= j < i && strings.slots[j].Live? ==> strings.slots[j].key.isMarked
      {
        EraseIfWhite(i, all);
      }
      strings.KeysAreLive();
    }

    method EraseIfWhite(i: nat, ghost all: set<Obj>)
      requires strings.Valid() && i < strings.slots.Length && Keys() <= all
      modifies strings.slots
      ensures strings.Valid() && Keys() <= old(Keys())
      ensures forall k <- all :: k.isMarked && k in old(Keys()) ==> k in Keys()
      ensures forall j :: 0 <= j < strings.slots.Length ==> strings.slots[j] == old(strings.slots[j]) || strings.slots[j].Tombstone?
      ensures strings.slots[i].Live? ==> strings.slots[i].key.isMarked
    {
      hide HashMap.Valid;
      hide HashMap.Contents;
      match strings.slots[i]
      case Live(key, _) =>
        if !key.isMarked {
          ghost var keys := Keys();
          var _ := strings.Erase(key);
          assert Keys() == keys - {key};
          strings.KeysAreLive();
        }
      case _ =>
    }

    // ----- collections -----

    /** Marks, drops dead strings from the table, and sweeps. What is left of the heap is
        exactly what the roots reach, in the same order. */
    method CollectGarbage(ghost pending: set<Obj>)
      requires Sound(pending) && pending <= heap.Roots()
      modifies heap`objects, heap`grayStack, heap`list, heap`all, heap`black, heap.all`isMarked, heap.all`nextObject, strings.slots
      ensures Sound(pending) && heap.Roots() == old(heap.Roots())
      ensures heap.all == set o | o in old(heap.all) && Collector.Reachable(old(heap.Roots()), old(heap.Edges()), o)
      ensures heap.list == Filter(old(heap.list), heap.all)
      ensures heap.NothingDangles()
    {
      hide Interned;
      hide Canonical;
      hide HashMap.Valid;
      hide HashMap.Contents;
      hide Heap.Linked;
      hide Heap.Closed;
      hide Heap.Roots;
      hide Heap.Edges;
      hide Filter;
      ghost var keys, all := Keys(), heap.all;
      heap.MarkPhase();
      ghost var marked := heap.Marked();
      forall o <- pending ensures o in marked {
        IsPending(keys, all, pending, o);
        RootReachable(heap.Roots(), heap.Edges(), o);
      }
      hide Collector.Reachable;
      KeysKnown(keys, all, pending);
      TableRemoveWhite(all);
      KeysMarked(keys, all, pending, marked);
      FewerStrings(keys, all, pending, marked, hashOf);
      heap.SweepPhase();
      heap.ClosedIsIntact();
    }

    lemma IsPending(keys: set<Obj>, all: set<Obj>, pending: set<Obj>, o: Obj)
      requires Interned(keys, all, pending) && o in pending
      ensures o in all
    {
    }

    lemma KeysKnown(keys: set<Obj>, all: set<Obj>, pending: set<Obj>)
      requires Interned(keys, all, pending)
      ensures keys <= all
    {
    }

    lemma KeysMarked(keys: set<Obj>, all: set<Obj>, pending: set<Obj>, marked: set<Obj>)
      requires Interned(keys, all, pending) && marked == heap.Marked() && all == heap.all
      ensures (set k | k in keys && k.isMarked) == keys * marked
    {
    }

    // ----- making strings -----

    /** Adds a string that is on the stack. */
    method AddString(s: Obj)
      requires Sound({s}) && s in heap.Roots()
      modifies heap`objects, heap`grayStack, heap`list, heap`all, heap`black, heap`stack, heap.all`isMarked, heap.all`nextObject, strings, strings.slots
      ensures Valid() && s in StringsIn(heap.all) && heap.stack == old(heap.stack)
      ensures heap.all <= old(heap.all)
      ensures strings.slots == old(strings.slots) || fresh(strings.slots)
    {
      hide Interned;
      hide Canonical;
      hide HashMap.Valid;
      hide HashMap.Contents;
      hide Heap.Valid;
      hide Heap.Roots;
      hide Heap.Edges;
      hide Filter;
      hide Collector.Reachable;
      MakeRoom(s);
      ghost var keys := Keys();
      StringAdded(keys, heap.all, s);
      var _ := strings.Insert(s, ());
      assert Keys() == keys + {s};
    }

    /** Making room may allocate, any allocation may collect, and a collection drops keys
        from the table that is about to be rehashed. */
    method MakeRoom(s: Obj)
      requires Sound({s}) && s in heap.Roots()
      modifies heap`objects, heap`grayStack, heap`list, heap`all, heap`black, heap`stack, heap.all`isMarked, heap.all`nextObject, strings, strings.slots
      ensures Sound({s}) && !strings.NeedsRoom() && heap.stack == old(heap.stack)
      ensures heap.all <= old(heap.all)
      ensures strings.slots == old(strings.slots) || fresh(strings.slots)
    {
      hide Interned;
      hide Canonical;
      hide HashMap.Valid;
      hide HashMap.Contents;
      hide Heap.Valid;
      hide Heap.Roots;
      hide Heap.Edges;
      hide Filter;
      hide Collector.Reachable;
      if strings.NeedsRoom() {
        if * {
          CollectGarbage({s});
        }
        strings.GrowthFits();
        strings.RehashImpl(Bits.GrowCapacity(strings.slots.Length));
      }
    }

    /** The string object with these characters: the one there is, or a new one. */
    method MakeString(strv: string) returns (r: Obj)
      requires Valid()
      modifies heap`objects, heap`grayStack, heap`list, heap`all, heap`black, heap`stack, heap.all`isMarked, heap.all`nextObject, strings, strings.slots
      ensures Valid() && r in StringsIn(heap.all) && r.chars == strv
      ensures forall s <- StringsIn(old(heap.all)) :: s.chars == strv ==> s == r
      ensures heap.stack == old(heap.stack)
      ensures heap.all <= old(heap.all) + {r} && (r in old(heap.all) || fresh(r))
      ensures strings.slots == old(strings.slots) || fresh(strings.slots)
    {
      var hash := hashOf(strv);
      var interned := strings.LookUp(hash, (o: Obj) => o.hash == hash && o.chars == strv);
      if interned.Some? {
        SamePointers(interned.value);
        return interned.value;
      }
      NotInterned(strv);
      hide Interned;
      hide Canonical;
      r := NewString(strv, hash);
    }

    /** A string that the table does not have. */
    method NewString(strv: string, hash: nat) returns (r: Obj)
      requires Valid() && hash == hashOf(strv) && forall s <- StringsIn(heap.all) :: s.chars != strv
      modifies heap`objects, heap`grayStack, heap`list, heap`all, heap`black, heap`stack, heap.all`isMarked, heap.all`nextObject, strings, strings.slots
      ensures Valid() && r in StringsIn(heap.all) && r.chars == strv && fresh(r)
      ensures heap.stack == old(heap.stack)
      ensures heap.all <= old(heap.all) + {r}
      ensures strings.slots == old(strings.slots) || fresh(strings.slots)
    {
      hide Interned;
      hide Canonical;
      hide HashMap.Valid;
      hide HashMap.Contents;
      hide Heap.Valid;
      hide Heap.Roots;
      hide Heap.Edges;
      hide Filter;
      hide Collector.Reachable;
      if * {
        CollectGarbage({});
      }
      ghost var all := heap.all;
      r := heap.Allocate(StringKind, strv, hash);
      OneMoreString(Keys(), all, r, hashOf);
      assert Refs([Ref(r)]) == {r};
      heap.PushStack(Ref(r));
      AddString(r);
      var _ := heap.PopStack();
    }

    lemma SamePointers(a: Obj)
      requires Valid() && a in Keys()
      ensures a in StringsIn(heap.all) && forall s <- StringsIn(heap.all) :: s.chars == a.chars ==> s == a
    {
    }

    lemma NotInterned(strv: string)
      requires Valid() && forall k <- Keys() :: STORED_HASH(k) == hashOf(strv) ==> !(k.hash == hashOf(strv) && k.chars == strv)
      ensures forall s <- StringsIn(heap.all) :: s.chars != strv
    {
    }
 
    // ----- whole runs -----

    lemma OnStack(i: nat)
      requires Valid() && i < |heap.stack| && heap.stack[i].Ref?
      ensures heap.stack[i].obj in heap.all && Refs([heap.stack[i]]) <= heap.all && Known([heap.stack[i].obj]) <= heap.all
    {
      assert heap.stack[i].obj in Refs(heap.stack);
    }

    lemma StackValue(i: nat)
      requires Valid() && i < |heap.stack|
      ensures Refs([heap.stack[i]]) <= heap.all
    {
      if heap.stack[i].Ref? { OnStack(i); }
    }

    /** A string on top of the stack. */
    method PushString(chars: string) returns (r: Obj)
      requires Valid()
      modifies heap`objects, heap`grayStack, heap`list, heap`all, heap`black, heap`stack, heap.all`isMarked, heap.all`nextObject, strings, strings.slots
      ensures Valid() && r in StringsIn(heap.all) && r.chars == chars && heap.stack == old(heap.stack) + [Ref(r)]
      ensures forall s <- StringsIn(old(heap.all)) :: s.chars == chars ==> s == r
      ensures heap.all <= old(heap.all) + {r} && (r in old(heap.all) || fresh(r))
      ensures strings.slots == old(strings.slots) || fresh(strings.slots)
    {
      hide Interned;
      hide Canonical;
      hide HashMap.Valid;
      hide HashMap.Contents;
      hide Heap.Valid;
      hide Heap.Roots;
      r := MakeString(chars);
      assert Refs([Ref(r)]) == {r};
      heap.PushStack(Ref(r));
    }

    /** A new object that is no string, on top of the stack. Allocating it may collect. */
    method PushObject(kind: Kind) returns (r: Obj)
      requires Valid() && !kind.StringKind?
      modifies heap`objects, heap`grayStack, heap`list, heap`all, heap`black, heap`stack, heap.all`isMarked, heap.all`nextObject, strings.slots
      ensures Valid() && fresh(r) && r.kind == kind && r.chars == "" && heap.stack == old(heap.stack) + [Ref(r)]
      ensures r.constants == [] && r.closed == Data(0) && r.upvalues == [] && r.function_ == null && r.name == null
      ensures heap.all <= old(heap.all) + {r}
    {
      hide HashMap.Valid;
      hide HashMap.Contents;
      hide Heap.Valid;
      hide Heap.Roots;
      hide Heap.Edges;
      hide Filter;
      hide Collector.Reachable;
      hide Interned;
      hide Canonical;
      if * {
        CollectGarbage({});
      }
      ghost var all := heap.all;
      r := heap.Allocate(kind, "", 0);
      OtherObject(Keys(), all, r, hashOf);
      assert Refs([Ref(r)]) == {r};
      heap.PushStack(Ref(r));
    }

    method Push(v: Value)
      requires Valid() && Refs([v]) <= heap.all
      modifies heap`stack
      ensures Valid() && heap.stack == old(heap.stack) + [v]
    {
      hide Interned;
      hide Canonical;
      hide HashMap.Valid;
      hide HashMap.Contents;
      hide Heap.Valid;
      heap.PushStack(v);
    }

    method Pop() returns (v: Value)
      requires Valid() && heap.stack != []
      modifies heap`stack
      ensures Valid() && heap.stack == old(heap.stack)[..|old(heap.stack)| - 1] && v == old(heap.stack)[|old(heap.stack)| - 1]
    {
      hide Interned;
      hide Canonical;
      hide HashMap.Valid;
      hide HashMap.Contents;
      hide Heap.Valid;
      v := heap.PopStack();
    }

    /** The field of a known object refers to a known object. */
    lemma FieldKnown(o: Obj, v: Value)
      requires Valid() && o in heap.all
      requires v.Ref? ==>
        match o.kind
        case FunctionKind => v in o.constants || v.obj == o.name
        case UpvalueKind => v == o.closed
        case ClosureKind => v.obj in o.upvalues || v.obj == o.function_
        case NativeKind => false
        case StringKind => false
      ensures Refs([v]) <= heap.all
    {
      assert o.EdgeSet() <= heap.all;
      if v.Ref? && o.kind.FunctionKind? && v in o.constants { assert v.obj in Refs(o.constants); }
    }

    /** What a program does to an object on the stack: a function gets one more constant, an
        upvalue another value, and a closure one more upvalue. There is no write barrier. */
    method Store(o: Obj, v: Value)
      requires Valid() && o in heap.all && Refs([v]) <= heap.all
      modifies o`constants, o`closed, o`upvalues
      ensures Valid()
      ensures o.constants == if o.kind.FunctionKind? then old(o.constants) + [v] else old(o.constants)
      ensures o.closed == if o.kind.UpvalueKind? then v else old(o.closed)
      ensures o.upvalues == if o.kind.ClosureKind? && v.Ref? then old(o.upvalues) + [v.obj] else old(o.upvalues)
    {
      hide Interned;
      hide Canonical;
      hide HashMap.Valid;
      hide HashMap.Contents;
      hide Heap.Valid;
      match o.kind
      case FunctionKind => heap.StoreConstant(o, v);
      case UpvalueKind => heap.StoreClosed(o, v);
      case ClosureKind =>
        if v.Ref? {
          assert Known([v.obj]) == Refs([v]);
          heap.StoreUpvalue(o, v.obj);
        }
      case _ =>
    }

    /** A closure's function, or a function's name. */
    method StoreHead(o: Obj, v: Obj?)
      requires Valid() && o in heap.all && Known([v]) <= heap.all
      modifies o`function_, o`name
      ensures Valid()
      ensures o.function_ == if o.kind.ClosureKind? then v else old(o.function_)
      ensures o.name == if o.kind.FunctionKind? then v else old(o.name)
    {
      hide Interned;
      hide Canonical;
      hide HashMap.Valid;
      hide HashMap.Contents;
      hide Heap.Valid;
      match o.kind
      case FunctionKind => heap.StoreName(o, v);
      case ClosureKind => heap.StoreFunction(o, v);
      case _ =>
    }

    lemma GlobalValue(g: nat)
      requires Valid() && g < |heap.globalValues|
      ensures Refs([heap.globalValues[g]]) <= heap.all
    {
      if heap.globalValues[g].Ref? { assert heap.globalValues[g].obj in Refs(heap.globalValues); }
    }

    method AddGlobal(v: Value)
      requires Valid() && Refs([v]) <= heap.all
      modifies heap`globalValues
      ensures Valid() && heap.globalValues == old(heap.globalValues) + [v]
    {
      hide Interned;
      hide Canonical;
      hide HashMap.Valid;
      hide HashMap.Contents;
      hide Heap.Valid;
      heap.AddGlobal(v);
    }

    method SetGlobal(g: nat, v: Value)
      requires Valid() && g < |heap.globalValues| && Refs([v]) <= heap.all
      modifies heap`globalValues
      ensures Valid() && heap.globalValues == old(heap.globalValues)[g := v]
    {
      hide Interned;
      hide Canonical;
      hide HashMap.Valid;
      hide HashMap.Contents;
      hide Heap.Valid;
      heap.SetGlobal(g, v);
    }
  }
}
