/** The mark-and-sweep collector: marking with a gray stack, and an in-place sweep of
    the list of objects. */
module Collector {
  import opened Bytecode

  datatype Kind = ClosureKind | FunctionKind | UpvalueKind | NativeKind | StringKind

  datatype Value = Data(i: int) | Ref(obj: Obj)

  function Refs(values: seq<Value>): set<Obj> {
    set v | v in values && v.Ref? :: v.obj
  }

  function Known(objs: seq<Obj?>): set<Obj> {
    set o: Obj | o in objs
  }

  class Obj {
    const kind: Kind
    /** The characters of a string, and their hash. */
    const chars: string
    const hash: nat
    var isMarked: bool
    var nextObject: Obj?
    var function_: Obj?
    var upvalues: seq<Obj?>
    var name: Obj?
    var constants: seq<Value>
    var closed: Value

    constructor (kind: Kind, chars: string, hash: nat, next: Obj?)
      ensures this.kind == kind && this.chars == chars && this.hash == hash
      ensures !isMarked && nextObject == next && EdgeSet() == {}
      ensures constants == [] && closed == Data(0) && upvalues == [] && function_ == null && name == null
    {
      this.kind, this.chars, this.hash := kind, chars, hash;
      isMarked, nextObject := false, next;
      function_, upvalues, name, constants, closed := null, [], null, [], Data(0);
    }

    /** The objects that blackening this one marks. */
    ghost function EdgeSet(): set<Obj>
      reads `function_, `upvalues, `name, `constants, `closed
    {
      match kind
      case ClosureKind => Known([function_] + upvalues)
      case FunctionKind => Known([name]) + Refs(constants)
      case UpvalueKind => Refs([closed])
      case NativeKind => {}
      case StringKind => {}
    }

    /** The fields that its kind has refer to objects in `all`. */
    ghost predicate FieldsIn(all: set<Obj>)
      reads `function_, `upvalues, `name, `constants, `closed
    {
      && (kind.ClosureKind? ==> (function_ != null ==> function_ in all) && forall u: Obj :: u in upvalues ==> u in all)
      && (kind.FunctionKind? ==> (name != null ==> name in all) && forall v <- constants :: v.Ref? ==> v.obj in all)
      && (kind.UpvalueKind? ==> (closed.Ref? ==> closed.obj in all))
    }

    lemma EdgesByField(all: set<Obj>)
      ensures EdgeSet() <= all <==> FieldsIn(all)
    {
      if EdgeSet() <= all {
        forall u: Obj | u in [function_] + upvalues ensures kind.ClosureKind? ==> u in all { }
        forall v <- constants ensures kind.FunctionKind? && v.Ref? ==> v.obj in all { }
      }
    }
  }

  // ----- reachability -----

  function Targets(edges: map<Obj, set<Obj>>, from: set<Obj>): set<Obj> {
    set o, t | o in from && o in edges && t in edges[o] :: t
  }

  /** What can be reached from the roots in at most `n` steps. */
  function Within(roots: set<Obj>, edges: map<Obj, set<Obj>>, n: nat): set<Obj> {
    if n == 0 then roots else Within(roots, edges, n - 1) + Targets(edges, Within(roots, edges, n - 1))
  }

  ghost predicate Reachable(roots: set<Obj>, edges: map<Obj, set<Obj>>, o: Obj) {
    exists n: nat :: o in Within(roots, edges, n)
  }

  /** A set that holds the roots and is closed under edges holds all that is reachable. */
  lemma {:induction false} ClosedHolds(roots: set<Obj>, edges: map<Obj, set<Obj>>, s: set<Obj>, n: nat)
    requires roots <= s && Targets(edges, s) <= s
    ensures Within(roots, edges, n) <= s
  {
    if n > 0 { ClosedHolds(roots, edges, s, n - 1); }
  }

  lemma StepReachable(roots: set<Obj>, edges: map<Obj, set<Obj>>, o: Obj, t: Obj)
    requires Reachable(roots, edges, o) && o in edges && t in edges[o]
    ensures Reachable(roots, edges, t)
  {
    var n: nat :| o in Within(roots, edges, n);
    assert t in Within(roots, edges, n + 1);
  }

  lemma RootReachable(roots: set<Obj>, edges: map<Obj, set<Obj>>, o: Obj)
    requires o in roots
    ensures Reachable(roots, edges, o)
  {
    assert o in Within(roots, edges, 0);
  }

  // ----- the list of objects -----

  ghost predicate NoDuplicates<T>(s: seq<T>) {
    forall i, j :: 0 <= i < j < |s| ==> s[i] != s[j]
  }

  ghost predicate Links(o: Obj?, list: seq<Obj>, i: nat) {
    if i < |list| then o == list[i] else o == null
  }

  /** `o` is the last of `list`, or null if there is none. */
  ghost predicate After(o: Obj?, list: seq<Obj>) {
    if list == [] then o == null else o == list[|list| - 1]
  }

  /** The elements of `s` that are in `keep`, in the same order. */
  ghost function Filter<T>(s: seq<T>, keep: set<T>): seq<T> {
    if s == [] then [] else (if s[0] in keep then [s[0]] else []) + Filter(s[1..], keep)
  }

  class Heap {
    /** Head of the list of all objects. */
    var objects: Obj?
    var grayStack: seq<Obj>

    // roots
    var stack: seq<Value>
    var frames: seq<Obj>
    var openUpvalues: seq<Obj>
    var globalValues: seq<Value>
    var globalIndices: seq<(Value, Value)>
    var parserTokens: seq<Value>
    var compilerFunctions: seq<Obj?>

    /** The list, and its elements. */
    ghost var list: seq<Obj>
    ghost var all: set<Obj>
    /** Marked objects whose edges have been marked. */
    ghost var black: set<Obj>

    ghost function StackRoots(): set<Obj>
      reads `stack, `frames, `openUpvalues
    {
      Refs(stack) + Known(frames) + Known(openUpvalues)
    }

    ghost function GlobalRoots(): set<Obj>
      reads `globalValues, `globalIndices
    {
      Refs(globalValues) + Refs(Flatten(globalIndices))
    }

    ghost function CompilerRoots(): set<Obj>
      reads `parserTokens, `compilerFunctions
    {
      Refs(parserTokens) + Known(compilerFunctions)
    }

    ghost function Roots(): set<Obj>
      reads `stack, `frames, `openUpvalues, `globalValues, `globalIndices, `parserTokens, `compilerFunctions
    {
      StackRoots() + GlobalRoots() + CompilerRoots()
    }

    ghost function Edges(): map<Obj, set<Obj>>
      reads `all, all`function_, all`upvalues, all`name, all`constants, all`closed
    {
      map o | o in all :: o.EdgeSet()
    }

    ghost function Marked(): set<Obj>
      reads `all, all`isMarked
    {
      set o | o in all && o.isMarked
    }

    ghost predicate Linked()
      reads `objects, `list, `all, all`nextObject
    {
      && NoDuplicates(list) && all == Known(list)
      && Links(objects, list, 0)
      && forall i {:trigger list[i].nextObject} :: 0 <= i < |list| ==> Links(list[i].nextObject, list, i + 1)
    }

    /** Roots and fields refer to objects of the heap. */
    ghost predicate Closed()
      reads this, all`function_, all`upvalues, all`name, all`constants, all`closed
    {
      Roots() <= all && forall o <- all :: o.EdgeSet() <= all
    }

    /** An object is a root exactly when one of these fields refers to it. */
    lemma RootsByField(o: Obj)
      ensures o in Roots() <==>
        || Ref(o) in stack || o in frames || o in openUpvalues || Ref(o) in globalValues
        || (exists e <- globalIndices :: e.0 == Ref(o) || e.1 == Ref(o))
        || Ref(o) in parserTokens || o in compilerFunctions
    {
      FlattenHas(globalIndices, Ref(o));
    }

    /** Nothing refers to a freed object: field by field, for the roots and for every object. */
    ghost predicate NothingDangles()
      reads this, all`function_, all`upvalues, all`name, all`constants, all`closed
    {
      && (forall v <- stack :: v.Ref? ==> v.obj in all)
      && (forall o <- frames :: o in all)
      && (forall o <- openUpvalues :: o in all)
      && (forall v <- globalValues :: v.Ref? ==> v.obj in all)
      && (forall e <- globalIndices :: (e.0.Ref? ==> e.0.obj in all) && (e.1.Ref? ==> e.1.obj in all))
      && (forall v <- parserTokens :: v.Ref? ==> v.obj in all)
      && (forall o: Obj :: o in compilerFunctions ==> o in all)
      && (forall o <- all :: o.FieldsIn(all))
    }

    lemma ClosedIsIntact()
      requires Closed()
      ensures NothingDangles()
    {
      hide Obj.EdgeSet;
      hide Obj.FieldsIn;
      hide Roots;
      forall o <- all ensures o.FieldsIn(all) { o.EdgesByField(all); }
      forall o: Obj ensures o in Roots() ==> o in all { }
      forall v <- stack + globalValues + parserTokens ensures v.Ref? ==> v.obj in all { if v.Ref? { RootsByField(v.obj); } }
      forall o <- frames + openUpvalues ensures o in all { RootsByField(o); }
      forall e <- globalIndices ensures (e.0.Ref? ==> e.0.obj in all) && (e.1.Ref? ==> e.1.obj in all) {
        if e.0.Ref? { RootsByField(e.0.obj); }
        if e.1.Ref? { RootsByField(e.1.obj); }
      }
      forall o: Obj | o in compilerFunctions ensures o in all { RootsByField(o); }
    }

    /** Between collections nothing is marked and nothing is gray. */
    ghost predicate Valid()
      reads this, all
    {
      Linked() && Closed() && Marked() == {} && grayStack == []
    }

    constructor ()
      ensures Valid() && list == [] && all == {} && stack == [] && globalValues == []
    {
      objects, grayStack, list, all, black := null, [], [], {}, {};
      stack, frames, openUpvalues, globalValues := [], [], [], [];
      globalIndices, parserTokens, compilerFunctions := [], [], [];
    }

    // ----- marking -----

    /** Every marked object is black, on the gray stack exactly once, or pending. */
    ghost predicate Coloring(pending: set<Obj>)
      reads `grayStack, `black, `all, all`isMarked
    {
      && NoDuplicates(grayStack)
      && Marked() == black + Known(grayStack) + pending
      && black !! Known(grayStack) && pending !! black + Known(grayStack)
    }

    method MarkObject(obj: Obj?, ghost pending: set<Obj>)
      requires (obj != null ==> obj in all) && Coloring(pending)
      modifies `grayStack, all`isMarked
      ensures Coloring(pending) && Marked() == old(Marked()) + Known([obj])
    {
      if obj == null {
        return;
      }
      if obj.isMarked {
        return;
      }
      ghost var gray := grayStack;
      obj.isMarked := true;
      grayStack := grayStack + [obj];
      KnownAppend(gray, [obj]);
      assert Marked() == old(Marked()) + {obj};
    }

    method MarkValue(value: Value, ghost pending: set<Obj>)
      requires Refs([value]) <= all && Coloring(pending)
      modifies `grayStack, all`isMarked
      ensures Coloring(pending) && Marked() == old(Marked()) + Refs([value])
    {
      if value.Ref? {
        assert value.obj in Refs([value]);
        MarkObject(value.obj, pending);
        assert Refs([value]) == Known([value.obj]);
      }
    }

    method MarkArray(values: seq<Value>, ghost pending: set<Obj>)
      requires Refs(values) <= all && Coloring(pending)
      modifies `grayStack, all`isMarked
      ensures Coloring(pending) && Marked() == old(Marked()) + Refs(values)
    {
      hide Coloring;
      for i := 0 to |values|
        invariant Coloring(pending) && Marked() == old(Marked()) + Refs(values[..i])
      {
        RefsStep(values, i);
        MarkValue(values[i], pending);
      }
      assert values[..|values|] == values;
    }

    method MarkAll(objs: seq<Obj?>, ghost pending: set<Obj>)
      requires Known(objs) <= all && Coloring(pending)
      modifies `grayStack, all`isMarked
      ensures Coloring(pending) && Marked() == old(Marked()) + Known(objs)
    {
      hide Coloring;
      for i := 0 to |objs|
        invariant Coloring(pending) && Marked() == old(Marked()) + Known(objs[..i])
      {
        assert objs[..i + 1] == objs[..i] + [objs[i]];
        KnownAppend(objs[..i], [objs[i]]);
        assert objs[i] != null ==> objs[i] in Known(objs);
        MarkObject(objs[i], pending);
      }
      assert objs[..|objs|] == objs;
    }

    /** The string keys and the values of the table of global names. */
    method MarkTable(entries: seq<(Value, Value)>, ghost pending: set<Obj>)
      requires Refs(Flatten(entries)) <= all && Coloring(pending)
      modifies `grayStack, all`isMarked
      ensures Coloring(pending) && Marked() == old(Marked()) + Refs(Flatten(entries))
    {
      hide Coloring;
      for i := 0 to |entries|
        invariant Coloring(pending) && Marked() == old(Marked()) + Refs(Flatten(entries[..i]))
      {
        FlattenStep(entries, i);
        MarkValue(entries[i].0, pending);
        MarkValue(entries[i].1, pending);
      }
      assert entries[..|entries|] == entries;
    }

    method MarkRoots()
      requires Coloring({}) && Roots() <= all
      modifies `grayStack, all`isMarked
      ensures Coloring({}) && Marked() == old(Marked()) + Roots()
    {
      hide Coloring;
      hide Marked;
      hide Refs;
      hide Known;
      ghost var before := Marked();
      MarkArray(stack, {});
      MarkAll(frames, {});
      MarkAll(openUpvalues, {});
      assert Marked() == before + StackRoots();
      MarkArray(globalValues, {});
      MarkTable(globalIndices, {});
      assert Marked() == before + StackRoots() + GlobalRoots();
      MarkCompilerRoots();
    }

    method MarkCompilerRoots()
      requires Coloring({}) && CompilerRoots() <= all
      modifies `grayStack, all`isMarked
      ensures Coloring({}) && Marked() == old(Marked()) + CompilerRoots()
    {
      hide Coloring;
      hide Marked;
      MarkArray(parserTokens, {});
      MarkAll(compilerFunctions, {});
    }

    method BlackenObject(obj: Obj)
      requires obj in all && obj.EdgeSet() <= all && Coloring({obj})
      modifies `grayStack, all`isMarked
      ensures Coloring({obj}) && Marked() == old(Marked()) + obj.EdgeSet()
    {
      hide Coloring;
      match obj.kind
      case ClosureKind =>
        KnownAppend([obj.function_], obj.upvalues);
        MarkObject(obj.function_, {obj});
        MarkAll(obj.upvalues, {obj});
      case FunctionKind =>
        MarkObject(obj.name, {obj});
        MarkArray(obj.constants, {obj});
      case UpvalueKind => MarkValue(obj.closed, {obj});
      case NativeKind =>
      case StringKind =>
    }

    /** Marking is exact: it ends with the objects that can be reached from the roots. */
    method TraceReferences(ghost roots: set<Obj>)
      requires Coloring({}) && black == {} && roots == Roots() == Marked() && Closed()
      modifies `grayStack, `black, all`isMarked
      ensures grayStack == [] && Marked() == black
      ensures forall o <- all :: o.isMarked <==> Reachable(roots, Edges(), o)
    {
      hide Linked;
      hide Obj.EdgeSet;
      hide Roots;
      ghost var edges := Edges();
      forall o <- Marked() ensures Reachable(roots, edges, o) { RootReachable(roots, edges, o); }
      hide Within;
      while grayStack != []
        invariant Coloring({}) && Edges() == edges
        invariant roots <= Marked() && Targets(edges, black) <= Marked() <= all
        invariant forall o <- Marked() :: Reachable(roots, edges, o)
        decreases all - black
      {
        TraceOne(roots, edges);
      }
      assert Marked() == black;
      forall o <- all ensures o.isMarked <==> Reachable(roots, edges, o) {
        if Reachable(roots, edges, o) {
          var n: nat :| o in Within(roots, edges, n);
          ClosedHolds(roots, edges, Marked(), n);
        }
      }
    }

    static lemma AllReachable(roots: set<Obj>, edges: map<Obj, set<Obj>>, s: set<Obj>, o: Obj)
      requires o in s && o in edges && forall x <- s :: Reachable(roots, edges, x)
      ensures forall x <- s + edges[o] :: Reachable(roots, edges, x)
    {
      forall x <- s + edges[o] ensures Reachable(roots, edges, x) {
        if x !in s { StepReachable(roots, edges, o, x); }
      }
    }

    static lemma MoreTargets(edges: map<Obj, set<Obj>>, s: set<Obj>, o: Obj)
      requires o in edges
      ensures Targets(edges, s + {o}) == Targets(edges, s) + edges[o]
    {
    }

    method TraceOne(ghost roots: set<Obj>, ghost edges: map<Obj, set<Obj>>)
      requires Coloring({}) && Closed() && edges == Edges() && grayStack != []
      requires Targets(edges, black) <= Marked() <= all
      requires forall o <- Marked() :: Reachable(roots, edges, o)
      modifies `grayStack, `black, all`isMarked
      ensures Coloring({}) && old(Marked()) <= Marked() <= all && Targets(edges, black) <= Marked()
      ensures forall o <- Marked() :: Reachable(roots, edges, o)
      ensures old(black) < black <= all
    {
      hide Reachable;
      hide Obj.EdgeSet;
      hide Roots;
      hide Targets;
      var object_ := grayStack[|grayStack| - 1];
      KnownLast(grayStack);
      grayStack := grayStack[..|grayStack| - 1];
      ghost var before := Marked();
      assert object_ in before && object_ in all && edges[object_] == object_.EdgeSet();
      BlackenObject(object_);
      AllReachable(roots, edges, before, object_);
      MoreTargets(edges, black, object_);
      black := black + {object_};
    }

    // ----- sweeping -----

    /** Unlinks the unmarked objects in place and clears the marks of the others. */
    method Sweep()
      requires Linked()
      modifies `objects, `list, `all, all`isMarked, all`nextObject
      ensures Linked() && Marked() == {}
      ensures list == Filter(old(list), old(Marked())) && all == old(Marked())
      ensures forall o <- old(all) :: o !in all ==> o.nextObject == null
    {
      hide Linked;
      hide Filter;
      hide Cleared;
      ghost var marked := Marked();
      ghost var kept: seq<Obj>, rest, freed: set<Obj> := [], list, {};
      var previous: Obj?, object_ := null, objects;
      ListFacts();
      AllMarked(marked);
      assert kept + rest == list && kept + Filter(rest, marked) == Filter(list, marked);
      while object_ != null
        invariant Linked() && list == kept + rest && Filter(old(list), marked) == kept + Filter(rest, marked)
        invariant Links(object_, rest, 0) && After(previous, kept) && Cleared(rest, marked)
        invariant old(all) == all + freed && freed !! all && freed !! marked
        invariant forall o <- freed :: o.nextObject == null
        decreases |rest|
      {
        label Before:
        previous, object_, kept := SweepOne(previous, object_, kept, rest, marked);
        rest, freed := rest[1..], freed + (old@Before(all) - all);
      }
      assert rest == [] && Filter(rest, marked) == [] by { FilterNone(marked); }
      NoneMarked(marked);
    }

    /** Goes over the first of the objects that are left. */
    method SweepOne(prev: Obj?, object_: Obj, ghost before: seq<Obj>, ghost rest: seq<Obj>, ghost marked: set<Obj>)
      returns (previous: Obj?, next: Obj?, ghost kept: seq<Obj>)
      requires Linked() && list == before + rest && Links(object_, rest, 0) && After(prev, before) && Cleared(rest, marked)
      modifies `objects, `list, `all, all`isMarked, all`nextObject
      ensures rest != [] && Linked() && list == kept + rest[1..]
      ensures kept + Filter(rest[1..], marked) == before + Filter(rest, marked)
      ensures Links(next, rest[1..], 0) && After(previous, kept) && Cleared(rest[1..], marked)
      ensures all <= old(all)
      ensures forall o <- old(all) - all :: o !in marked && o.nextObject == null
    {
      hide Linked;
      hide Cleared;
      hide Filter;
      SplitAt(list, before, rest);
      MarkTells(rest, marked);
      SplitFilter(before, rest, marked);
      if object_.isMarked {
        kept := before + [object_];
        previous, next := KeepObject(object_, |before|, marked);
      } else {
        kept, previous := before, prev;
        next := FreeObject(previous, object_, |before|, marked);
      }
    }

    /** The sweep has cleared the marks of all objects but `rest`, and kept only marked ones. */
    ghost predicate Cleared(rest: seq<Obj>, marked: set<Obj>)
      reads `all, all`isMarked
    {
      && (forall o <- all :: o in rest ==> (o.isMarked <==> o in marked))
      && (forall o <- all :: o !in rest ==> !o.isMarked && o in marked)
    }

    lemma AllMarked(marked: set<Obj>)
      requires Linked() && marked == Marked()
      ensures Cleared(list, marked)
    {
    }

    lemma NoneMarked(marked: set<Obj>)
      requires Cleared([], marked)
      ensures Marked() == {} && all <= marked
    {
    }

    lemma MarkTells(rest: seq<Obj>, marked: set<Obj>)
      requires Linked() && Cleared(rest, marked) && rest != [] && rest[0] in list
      ensures rest[0] in all && (rest[0].isMarked <==> rest[0] in marked)
    {
    }

    /** Clears the mark of a survivor and goes on to the next object. */
    method KeepObject(object_: Obj, ghost k: nat, ghost marked: set<Obj>) returns (previous: Obj, next: Obj?)
      requires Linked() && k < |list| && list[k] == object_ && Cleared(list[k..], marked) && object_ in marked
      modifies object_`isMarked
      ensures Linked() && previous == object_ && Links(next, list[k + 1..], 0) && Cleared(list[k + 1..], marked)
    {
      object_.isMarked := false;
      assert forall o :: o in list[k + 1..] <==> o in list[k..] && o != object_;
      return object_, object_.nextObject;
    }

    method FreeObject(previous: Obj?, unreached: Obj, ghost k: nat, ghost marked: set<Obj>) returns (next: Obj?)
      requires Linked() && k < |list| && list[k] == unreached && Cleared(list[k..], marked) && unreached !in marked
      requires if k == 0 then previous == null else previous == list[k - 1]
      modifies `objects, `list, `all, all`nextObject
      ensures Linked() && list == old(list)[..k] + old(list)[k + 1..] && all == old(all) - {unreached}
      ensures unreached in old(all) && unreached.nextObject == null
      ensures Links(next, old(list)[k + 1..], 0) && Cleared(old(list)[k + 1..], marked)
    {
      next := unreached.nextObject;
      assert forall o :: o in list[k + 1..] <==> o in list[k..] && o != unreached;
      Unlink(previous, unreached, k);
    }

    /** Takes an object out of the list. */
    method Unlink(previous: Obj?, unreached: Obj, ghost k: nat)
      requires Linked() && k < |list| && list[k] == unreached
      requires if k == 0 then previous == null else previous == list[k - 1]
      modifies `objects, `list, `all, all`nextObject
      ensures Linked() && list == old(list)[..k] + old(list)[k + 1..] && all == old(all) - {unreached}
      ensures unreached.nextObject == null
      ensures Links(old(unreached.nextObject), list, k)
    {
      if previous != null {
        previous.nextObject := unreached.nextObject;
      } else {
        objects := unreached.nextObject;
      }
      unreached.nextObject := null;
      list := list[..k] + list[k + 1..];
      all := all - {unreached};
    }

    // ----- a collection -----

    /** Marks what can be reached from the roots, and nothing else. */
    method MarkPhase()
      requires Valid()
      modifies `grayStack, `black, all`isMarked
      ensures Linked() && Closed() && grayStack == []
      ensures forall o <- all :: o.isMarked <==> Reachable(Roots(), Edges(), o)
    {
      hide Linked;
      hide Coloring;
      hide Roots;
      hide Edges;
      hide Reachable;
      RootsKnown();
      hide Closed;
      black := {};
      StartColoring();
      hide Marked;
      MarkRoots();
      TraceReferences(Roots());
    }

    lemma RootsKnown()
      requires Closed()
      ensures Roots() <= all
    {
    }

    lemma StartColoring()
      requires Marked() == {} == black && grayStack == []
      ensures Coloring({})
    {
    }
    /** Frees the unmarked objects. The survivors keep their order and are closed: none of
        them refers to a freed object, and neither does a root. */
    method SweepPhase()
      requires Linked() && Closed() && grayStack == []
      requires forall o <- all :: o.isMarked <==> Reachable(Roots(), Edges(), o)
      modifies `objects, `list, `all, all`isMarked, all`nextObject
      ensures Valid() && list == Filter(old(list), old(Marked())) && all == old(Marked())
      ensures forall o <- all :: o.EdgeSet() == old(o.EdgeSet())
      ensures Roots() == old(Roots())
    {
      hide Linked;
      hide Filter;
      hide Reachable;
      hide Roots;
      hide Marked;
      hide Obj.EdgeSet;
      ghost var marked := Marked();
      ExactIsClosed();
      Sweep();
    }

    /** What can be reached holds the roots and is closed. */
    lemma ExactIsClosed()
      requires Closed() && forall o <- all :: o.isMarked <==> Reachable(Roots(), Edges(), o)
      ensures Roots() <= Marked() && forall o <- Marked() :: o in all && o.EdgeSet() <= Marked()
    {
      var edges := Edges();
      forall o <- Roots() ensures o in Marked() { RootReachable(Roots(), edges, o); }
      forall o <- Marked() ensures o.EdgeSet() <= Marked() {
        forall t <- o.EdgeSet() ensures t in Marked() { StepReachable(Roots(), edges, o, t); }
      }
    }
    // ----- the program -----

    /** A new object, linked in front of the list. */
    method Allocate(kind: Kind, chars: string, hash: nat) returns (o: Obj)
      requires Valid()
      modifies `objects, `list, `all
      ensures Valid() && fresh(o) && o.kind == kind && o.chars == chars && o.hash == hash && o.EdgeSet() == {}
      ensures o.constants == [] && o.closed == Data(0) && o.upvalues == [] && o.function_ == null && o.name == null
      ensures list == [o] + old(list) && all == old(all) + {o}
    {
      hide Linked;
      hide NoDuplicates;
      hide Links;
      hide Roots;
      ListFacts();
      ghost var was := list;
      o := new Obj(kind, chars, hash, objects);
      objects := o;
      list, all := [o] + list, all + {o};
      Prepended(was, o);
    }

    lemma Prepended(was: seq<Obj>, o: Obj)
      requires NoDuplicates(was) && o !in was && list == [o] + was && all == Known(was) + {o} && objects == o
      requires Links(o.nextObject, was, 0)
      requires forall i {:trigger was[i].nextObject} :: 0 <= i < |was| ==> Links(was[i].nextObject, was, i + 1)
      ensures Linked()
    {
      forall i | 0 <= i < |list| ensures Links(list[i].nextObject, list, i + 1) {
        if i > 0 { assert list[i] == was[i - 1] && Links(was[i - 1].nextObject, was, i); }
      }
    }
    method PushStack(value: Value)
      requires Valid() && Refs([value]) <= all
      modifies `stack
      ensures Valid() && stack == old(stack) + [value] && Refs([value]) <= Roots()
    {
      hide Linked;
      hide Obj.EdgeSet;
      stack := stack + [value];
      assert Refs(stack) == Refs(old(stack)) + Refs([value]);
    }

    method PopStack() returns (value: Value)
      requires Valid() && stack != []
      modifies `stack
      ensures Valid() && stack == old(stack)[..|old(stack)| - 1] && value == old(stack)[|old(stack)| - 1]
    {
      hide Linked;
      hide Obj.EdgeSet;
      value := stack[|stack| - 1];
      stack := stack[..|stack| - 1];
      assert Refs(stack) <= Refs(old(stack));
    }

    /** Writes to the fields of an object: there is no write barrier. */
    method StoreConstant(o: Obj, value: Value)
      requires Valid() && o in all && Refs([value]) <= all
      modifies o`constants
      ensures Valid() && o.constants == old(o.constants) + [value]
    {
      o.constants := o.constants + [value];
      assert Refs(o.constants) == Refs(old(o.constants)) + Refs([value]);
    }

    method StoreClosed(o: Obj, value: Value)
      requires Valid() && o in all && Refs([value]) <= all
      modifies o`closed
      ensures Valid() && o.closed == value
    {
      o.closed := value;
    }

    method StoreUpvalue(o: Obj, u: Obj?)
      requires Valid() && o in all && Known([u]) <= all
      modifies o`upvalues
      ensures Valid() && o.upvalues == old(o.upvalues) + [u]
    {
      o.upvalues := o.upvalues + [u];
      KnownAppend(old(o.upvalues), [u]);
      KnownAppend([o.function_], o.upvalues);
      KnownAppend([o.function_], old(o.upvalues));
    }

    method StoreFunction(o: Obj, f: Obj?)
      requires Valid() && o in all && Known([f]) <= all
      modifies o`function_
      ensures Valid() && o.function_ == f
    {
      KnownAppend([o.function_], o.upvalues);
      o.function_ := f;
      KnownAppend([f], o.upvalues);
    }

    method StoreName(o: Obj, name: Obj?)
      requires Valid() && o in all && Known([name]) <= all
      modifies o`name
      ensures Valid() && o.name == name
    {
      o.name := name;
    }

    method AddGlobal(value: Value)
      requires Valid() && Refs([value]) <= all
      modifies `globalValues
      ensures Valid() && globalValues == old(globalValues) + [value]
    {
      hide Linked;
      hide Obj.EdgeSet;
      globalValues := globalValues + [value];
      assert Refs(globalValues) == Refs(old(globalValues)) + Refs([value]);
    }

    method SetGlobal(g: nat, value: Value)
      requires Valid() && g < |globalValues| && Refs([value]) <= all
      modifies `globalValues
      ensures Valid() && globalValues == old(globalValues)[g := value]
    {
      hide Linked;
      hide Obj.EdgeSet;
      globalValues := globalValues[g := value];
      assert Refs(globalValues) <= Refs(old(globalValues)) + Refs([value]);
    }

    lemma ListFacts()
      requires Linked()
      ensures NoDuplicates(list) && all == Known(list) && Links(objects, list, 0)
      ensures forall i {:trigger list[i].nextObject} :: 0 <= i < |list| ==> Links(list[i].nextObject, list, i + 1)
    {
    }
  }

  lemma SplitAt<T>(list: seq<T>, before: seq<T>, rest: seq<T>)
    requires list == before + rest && rest != []
    ensures list[..|before|] == before && list[|before|] == rest[0]
    ensures list[|before|..] == rest && list[|before| + 1..] == rest[1..]
    ensures list == before + [rest[0]] + rest[1..]
  {
  }

  lemma SplitFilter<T>(before: seq<T>, rest: seq<T>, keep: set<T>)
    requires rest != []
    ensures before + Filter(rest, keep) == (if rest[0] in keep then before + [rest[0]] else before) + Filter(rest[1..], keep)
  {
    var r := Filter(rest[1..], keep);
    assert Filter(rest, keep) == (if rest[0] in keep then [rest[0]] else []) + r;
    hide Filter;
    if rest[0] in keep {
      assert before + ([rest[0]] + r) == before + [rest[0]] + r;
    } else {
      assert [] + r == r;
    }
  }

  lemma FilterNone<T>(keep: set<T>)
    ensures Filter([], keep) == []
  {
  }

  lemma KnownLast(objs: seq<Obj>)
    requires NoDuplicates(objs) && objs != []
    ensures
      var init, last := objs[..|objs| - 1], objs[|objs| - 1];
      NoDuplicates(init) && Known(objs) == Known(init) + {last} && last !in Known(init)
  {
    assert objs == objs[..|objs| - 1] + [objs[|objs| - 1]];
  }

  lemma KnownAppend(a: seq<Obj?>, b: seq<Obj?>)
    ensures Known(a + b) == Known(a) + Known(b)
  {
  }

  lemma RefsStep(values: seq<Value>, i: nat)
    requires i < |values|
    ensures Refs(values[..i + 1]) == Refs(values[..i]) + Refs([values[i]])
    ensures Refs([values[i]]) <= Refs(values)
  {
    assert values[..i + 1] == values[..i] + [values[i]];
  }

  lemma FlattenStep(entries: seq<(Value, Value)>, i: nat)
    requires i < |entries|
    ensures Refs(Flatten(entries[..i + 1])) == Refs(Flatten(entries[..i])) + Refs([entries[i].0]) + Refs([entries[i].1])
    ensures Refs(Flatten(entries[..i + 1])) <= Refs(Flatten(entries))
  {
    assert entries[..i + 1][..i] == entries[..i];
    FlattenPrefix(entries, i + 1);
  }

  lemma {:induction false} FlattenPrefix(entries: seq<(Value, Value)>, i: nat)
    requires i <= |entries|
    ensures Refs(Flatten(entries[..i])) <= Refs(Flatten(entries))
    decreases |entries|
  {
    if i < |entries| {
      FlattenPrefix(entries[..|entries| - 1], i);
      assert entries[..|entries| - 1][..i] == entries[..i];
    } else {
      assert entries[..i] == entries;
    }
  }

  lemma {:induction false} FlattenHas(entries: seq<(Value, Value)>, v: Value)
    ensures v in Flatten(entries) <==> exists e <- entries :: e.0 == v || e.1 == v
    decreases |entries|
  {
    if entries != [] {
      var init, last := entries[..|entries| - 1], entries[|entries| - 1];
      assert entries == init + [last];
      FlattenHas(init, v);
    }
  }

  /** Keys and values of the table of global indices. */
  function Flatten(entries: seq<(Value, Value)>): seq<Value> {
    if entries == [] then [] else Flatten(entries[..|entries| - 1]) + [entries[|entries| - 1].0, entries[|entries| - 1].1]
  }
}
