/** The open-addressing hash table: linear probing with tombstones. */
module HashMaps {
  import opened Bytecode
  import Bits

  /** An entry with the empty key is either truly empty or a tombstone. */
  datatype Slot<+K, +V> = Empty | Tombstone | Live(key: K, value: V)

  /** The slot `d` steps after `start`. */
  function Wrap(start: nat, d: nat, capacity: nat): (i: nat)
    requires start < capacity && d < capacity
    ensures i < capacity
  {
    if start + d < capacity then start + d else start + d - capacity
  }

  /** How many steps lead from `start` to `i`. */
  function Steps(start: nat, i: nat, capacity: nat): (d: nat)
    requires start < capacity && i < capacity
    ensures d < capacity && Wrap(start, d, capacity) == i
  {
    if start <= i then i - start else i + capacity - start
  }

  /** Entries that are not truly empty: live ones and tombstones. */
  function Used<K, V>(slots: seq<Slot<K, V>>): (n: nat)
    ensures n <= |slots|
  {
    if slots == [] then 0
    else Used(slots[..|slots| - 1]) + if slots[|slots| - 1].Empty? then 0 else 1
  }

  /** The map that the live entries are. */
  function Entries<K, V>(slots: seq<Slot<K, V>>): map<K, V> {
    if slots == [] then map[]
    else
      var m := Entries(slots[..|slots| - 1]);
      match slots[|slots| - 1]
      case Live(k, v) => m[k := v]
      case _ => m
  }

  ghost predicate UniqueKeys<K, V>(slots: seq<Slot<K, V>>) {
    forall i, j :: 0 <= i < j < |slots| && slots[i].Live? && slots[j].Live? ==> slots[i].key != slots[j].key
  }

  ghost predicate Agrees<K, V>(slots: seq<Slot<K, V>>, m: map<K, V>) {
    && (forall i :: 0 <= i < |slots| && slots[i].Live? ==> slots[i].key in m && m[slots[i].key] == slots[i].value)
    && (forall k <- m :: exists i :: 0 <= i < |slots| && slots[i] == Live(k, m[k]))
  }

  lemma {:induction false} EntriesAgree<K, V>(slots: seq<Slot<K, V>>)
    requires UniqueKeys(slots)
    ensures Agrees(slots, Entries(slots))
    decreases |slots|
  {
    if slots != [] {
      var init, last := slots[..|slots| - 1], slots[|slots| - 1];
      EntriesAgree(init);
      var m := Entries(slots);
      forall k <- m ensures exists i :: 0 <= i < |slots| && slots[i] == Live(k, m[k]) {
        if last.Live? && last.key == k {
          assert slots[|slots| - 1] == Live(k, m[k]);
        } else {
          var i :| 0 <= i < |init| && init[i] == Live(k, Entries(init)[k]);
          assert slots[i] == init[i];
        }
      }
      forall i | 0 <= i < |slots| && slots[i].Live? ensures slots[i].key in m && m[slots[i].key] == slots[i].value {
        if i < |slots| - 1 { assert init[i] == slots[i]; }
      }
    }
  }

  /** The live entries determine the map. */
  lemma AgreesUnique<K, V>(slots: seq<Slot<K, V>>, a: map<K, V>, b: map<K, V>)
    requires Agrees(slots, a) && Agrees(slots, b)
    ensures a == b
  {
    forall k <- a ensures k in b && b[k] == a[k] {
      var i :| 0 <= i < |slots| && slots[i] == Live(k, a[k]);
    }
    forall k <- b ensures k in a {
      var i :| 0 <= i < |slots| && slots[i] == Live(k, b[k]);
    }
  }

  lemma {:induction false} UsedUpdate<K, V>(slots: seq<Slot<K, V>>, i: nat, x: Slot<K, V>)
    requires i < |slots|
    ensures Used(slots[i := x]) == Used(slots) - (if slots[i].Empty? then 0 else 1) + (if x.Empty? then 0 else 1)
    decreases |slots|
  {
    var n := |slots| - 1;
    if i == n {
      assert slots[i := x][..n] == slots[..n];
    } else {
      assert slots[i := x][..n] == slots[..n][i := x];
      UsedUpdate(slots[..n], i, x);
    }
  }

  lemma {:induction false} HasEmpty<K, V>(slots: seq<Slot<K, V>>)
    requires Used(slots) < |slots|
    ensures exists i :: 0 <= i < |slots| && slots[i].Empty?
    decreases |slots|
  {
    var n := |slots| - 1;
    if !slots[n].Empty? {
      HasEmpty(slots[..n]);
      var i :| 0 <= i < n && slots[..n][i].Empty?;
      assert slots[i].Empty?;
    }
  }

  lemma {:induction false} AllEmpty<K, V>(slots: seq<Slot<K, V>>)
    requires forall i :: 0 <= i < |slots| ==> slots[i].Empty?
    ensures Used(slots) == 0 && Entries(slots) == map[]
    decreases |slots|
  {
    if slots != [] { AllEmpty(slots[..|slots| - 1]); }
  }

  /** Live entries are used. */
  lemma {:induction false} EntriesFit<K, V>(slots: seq<Slot<K, V>>)
    ensures |Entries(slots)| <= Used(slots)
    decreases |slots|
  {
    if slots != [] { EntriesFit(slots[..|slots| - 1]); }
  }

  function Home<K>(hash: K -> nat, key: K, capacity: nat): (i: nat)
    requires capacity > 0
    ensures i < capacity
  {
    hash(key) % capacity
  }

  /** No truly empty slot in the first `n` from `start` on. */
  ghost predicate Unbroken<K, V>(slots: seq<Slot<K, V>>, start: nat, n: nat)
    requires start < |slots| && n <= |slots|
  {
    forall d :: 0 <= d < n ==> !slots[Wrap(start, d, |slots|)].Empty?
  }

  /** Every live entry can be found by probing from its home. */
  ghost predicate Findable<K, V>(slots: seq<Slot<K, V>>, hash: K -> nat) {
    forall i :: 0 <= i < |slots| && slots[i].Live? ==>
      Unbroken(slots, Home(hash, slots[i].key, |slots|), Steps(Home(hash, slots[i].key, |slots|), i, |slots|))
  }

  ghost predicate NotFound<K, V>(slots: seq<Slot<K, V>>, start: nat, n: nat, found: K -> bool)
    requires start < |slots| && n <= |slots|
  {
    forall d :: 0 <= d < n ==>
      var x := slots[Wrap(start, d, |slots|)];
      x.Live? ==> !found(x.key)
  }

  /** The invariants of a table. */
  ghost predicate Table<K, V>(slots: seq<Slot<K, V>>, count: nat, hash: K -> nat) {
    && (slots == [] || (|slots| >= Bits.MIN_CAPACITY && Bits.IsPowerOf2(|slots|)))
    && count == Used(slots) && count <= |slots| * 3 / 4
    && UniqueKeys(slots) && Findable(slots, hash)
  }

  /** `i` is where probing for `key` ends: at its entry, or where to insert it. */
  ghost predicate PlaceOf<K, V>(slots: seq<Slot<K, V>>, hash: K -> nat, key: K, i: nat) {
    && i < |slots|
    && (slots[i].Live? ==> slots[i].key == key)
    && (!slots[i].Live? ==> forall j :: 0 <= j < |slots| && slots[j].Live? ==> slots[j].key != key)
    && Unbroken(slots, Home(hash, key, |slots|), Steps(Home(hash, key, |slots|), i, |slots|))
  }

  lemma ProbeStarts<K, V>(slots: seq<Slot<K, V>>, start: nat, found: K -> bool)
    requires start < |slots|
    ensures Unbroken(slots, start, 0) && NotFound(slots, start, 0, found) && Wrap(start, 0, |slots|) == start
  {
  }

  lemma StepsBack(start: nat, d: nat, capacity: nat)
    requires start < capacity && d < capacity
    ensures Steps(start, Wrap(start, d, capacity), capacity) == d
  {
  }

  lemma UnbrokenLess<K, V>(slots: seq<Slot<K, V>>, start: nat, d: nat, n: nat)
    requires start < |slots| && d <= n <= |slots| && Unbroken(slots, start, n)
    ensures Unbroken(slots, start, d)
  {
  }

  /** One more slot that is not truly empty and not what is looked for. */
  lemma ProbeOn<K, V>(slots: seq<Slot<K, V>>, start: nat, d: nat, end: nat, found: K -> bool)
    requires start < |slots| && end < |slots| && slots[end].Empty? && d <= Steps(start, end, |slots|)
    requires Unbroken(slots, start, d) && NotFound(slots, start, d, found)
    requires var x := slots[Wrap(start, d, |slots|)]; !x.Empty? && (x.Live? ==> !found(x.key))
    ensures d < Steps(start, end, |slots|)
    ensures Unbroken(slots, start, d + 1) && NotFound(slots, start, d + 1, found)
    ensures var i := Wrap(start, d, |slots|); Wrap(start, d + 1, |slots|) == if i + 1 == |slots| then 0 else i + 1
  {
  }

  /** Probing up to a truly empty slot has seen every live entry with that home. */
  lemma NotInBucket<K, V>(slots: seq<Slot<K, V>>, hash: K -> nat, start: nat, d: nat, found: K -> bool)
    requires Findable(slots, hash) && start < |slots| && d < |slots| && slots[Wrap(start, d, |slots|)].Empty?
    requires NotFound(slots, start, d, found)
    ensures forall i :: 0 <= i < |slots| && slots[i].Live? && Home(hash, slots[i].key, |slots|) == start ==> !found(slots[i].key)
  {
    forall i | 0 <= i < |slots| && slots[i].Live? && Home(hash, slots[i].key, |slots|) == start ensures !found(slots[i].key) {
      var e := Steps(start, i, |slots|);
      assert Unbroken(slots, start, e);
      assert slots[Wrap(start, e, |slots|)].Live?;
    }
  }

  /** What is at the place of a key is what the map says. */
  lemma PlaceTells<K, V>(slots: seq<Slot<K, V>>, hash: K -> nat, key: K, i: nat)
    requires UniqueKeys(slots) && PlaceOf(slots, hash, key, i)
    ensures slots[i].Live? <==> key in Entries(slots)
    ensures slots[i].Live? ==> slots[i] == Live(key, Entries(slots)[key])
  {
    EntriesAgree(slots);
    if key in Entries(slots) {
      var j :| 0 <= j < |slots| && slots[j] == Live(key, Entries(slots)[key]);
    }
  }

  lemma PutKeeps<K, V>(slots: seq<Slot<K, V>>, count: nat, hash: K -> nat, key: K, value: V, i: nat)
    requires Table(slots, count, hash) && PlaceOf(slots, hash, key, i)
    ensures
      var after := slots[i := Live(key, value)];
      var n := if slots[i].Empty? then count + 1 else count;
      && (n <= |slots| * 3 / 4 ==> Table(after, n, hash))
      && Entries(after) == Entries(slots)[key := value]
  {
    var after := slots[i := Live(key, value)];
    UsedUpdate(slots, i, Live(key, value));
    assert UniqueKeys(after);
    StaysFindable(slots, hash, i, Live(key, value));
    EntriesAgree(slots);
    EntriesAgree(after);
    PutAgrees(slots, Entries(slots), key, value, i);
    AgreesUnique(after, Entries(after), Entries(slots)[key := value]);
  }

  lemma PutAgrees<K, V>(slots: seq<Slot<K, V>>, m: map<K, V>, key: K, value: V, i: nat)
    requires Agrees(slots, m) && i < |slots|
    requires slots[i].Live? ==> slots[i].key == key
    requires forall j :: 0 <= j < |slots| && j != i && slots[j].Live? ==> slots[j].key != key
    ensures Agrees(slots[i := Live(key, value)], m[key := value])
  {
    var after, more := slots[i := Live(key, value)], m[key := value];
    forall k <- more ensures exists j :: 0 <= j < |after| && after[j] == Live(k, more[k]) {
      if k == key {
        assert after[i] == Live(k, more[k]);
      } else {
        var j :| 0 <= j < |slots| && slots[j] == Live(k, m[k]);
        assert after[j] == Live(k, more[k]);
      }
    }
  }

  lemma EraseKeeps<K, V>(slots: seq<Slot<K, V>>, count: nat, hash: K -> nat, i: nat)
    requires Table(slots, count, hash) && i < |slots| && slots[i].Live?
    ensures Table(slots[i := Tombstone], count, hash)
    ensures Entries(slots[i := Tombstone]) == Entries(slots) - {slots[i].key}
  {
    var after, less := slots[i := Tombstone], Entries(slots) - {slots[i].key};
    UsedUpdate(slots, i, Tombstone);
    StaysFindable(slots, hash, i, Tombstone);
    EntriesAgree(slots);
    EntriesAgree(after);
    forall k <- less ensures exists j :: 0 <= j < |after| && after[j] == Live(k, less[k]) {
      var j :| 0 <= j < |slots| && slots[j] == Live(k, Entries(slots)[k]);
      assert after[j] == Live(k, less[k]);
    }
    AgreesUnique(after, Entries(after), less);
  }

  lemma EntriesEmpty<K, V>(slots: seq<Slot<K, V>>)
    requires slots == []
    ensures Entries(slots) == map[]
  {
  }

  lemma EntriesStep<K, V>(slots: seq<Slot<K, V>>, x: Slot<K, V>)
    ensures Entries(slots + [x]) == if x.Live? then Entries(slots)[x.key := x.value] else Entries(slots)
  {
    assert (slots + [x])[..|slots|] == slots;
  }

  lemma KeyIsNew<K, V>(slots: seq<Slot<K, V>>, i: nat)
    requires UniqueKeys(slots) && i < |slots| && slots[i].Live?
    ensures slots[i].key !in Entries(slots[..i])
  {
    EntriesAgree(slots[..i]);
    assert forall j :: 0 <= j < i ==> slots[..i][j] == slots[j];
  }

  lemma {:induction false} EntriesPrefix<K, V>(slots: seq<Slot<K, V>>, i: nat)
    requires i <= |slots|
    ensures |Entries(slots[..i])| <= |Entries(slots)|
    decreases |slots|
  {
    if i < |slots| {
      assert slots[..|slots| - 1][..i] == slots[..i];
      EntriesPrefix(slots[..|slots| - 1], i);
    } else {
      assert slots[..i] == slots;
    }
  }

  /** Filling a slot breaks no probe. */
  lemma StaysFindable<K, V>(slots: seq<Slot<K, V>>, hash: K -> nat, i: nat, x: Slot<K, V>)
    requires Findable(slots, hash) && i < |slots| && !x.Empty?
    requires x.Live? ==> Unbroken(slots, Home(hash, x.key, |slots|), Steps(Home(hash, x.key, |slots|), i, |slots|))
    ensures Findable(slots[i := x], hash)
  {
    var after := slots[i := x];
    forall j | 0 <= j < |after| && after[j].Live?
      ensures Unbroken(after, Home(hash, after[j].key, |after|), Steps(Home(hash, after[j].key, |after|), j, |after|))
    {
      var home := Home(hash, after[j].key, |slots|);
      assert Unbroken(slots, home, Steps(home, j, |slots|));
    }
  }

  class HashMap<K(==), V> {
    var slots: array<Slot<K, V>>
    /** Live entries and tombstones. */
    var count: nat
    const hash: K -> nat

    ghost predicate Valid()
      reads this, slots
    {
      Table(slots[..], count, hash)
    }

    ghost function Contents(): map<K, V>
      reads this, slots
    {
      Entries(slots[..])
    }

    constructor (hash: K -> nat)
      ensures Valid() && Contents() == map[] && this.hash == hash && fresh(slots)
    {
      this.hash := hash;
      slots, count := new Slot<K, V>[0], 0;
    }

    /** Probes from the home of hash `h` for an entry that `found` accepts. Ends at that
        entry or, if there is none with this home, at the first slot to insert it. */
    method FindInBucket(h: nat, found: K -> bool) returns (index: nat)
      requires Valid() && slots.Length > 0
      ensures index < slots.Length
      ensures slots[index].Live? ==> found(slots[index].key)
      ensures !slots[index].Live? ==>
        forall i :: 0 <= i < slots.Length && slots[i].Live? && Home(hash, slots[i].key, slots.Length) == h % slots.Length ==>
          !found(slots[i].key)
      ensures Unbroken(slots[..], h % slots.Length, Steps(h % slots.Length, index, slots.Length))
    {
      hide Findable;
      hide UniqueKeys;
      hide Used;
      hide Bits.IsPowerOf2;
      hide Unbroken;
      hide NotFound;
      hide Wrap;
      index := Masked(h);
      ghost var s, start, d := slots[..], index, 0;
      var tombstone: int := -1;
      HasEmpty(s);
      ghost var end :| 0 <= end < |s| && s[end].Empty?;
      assert Findable(s, hash);
      ProbeStarts(s, start, found);
      hide HashMap.Valid;
      hide Contents;
      while true
        invariant s == slots[..] && Valid()
        invariant d <= Steps(start, end, |s|) && index == Wrap(start, d, |s|)
        invariant Unbroken(s, start, d) && NotFound(s, start, d, found)
        invariant tombstone < 0 || (tombstone < |s| && s[tombstone].Tombstone? && Steps(start, tombstone, |s|) < d)
        decreases |s| - d
      {
        var entry := slots[index];
        assert entry == s[index];
        StepsBack(start, d, |s|);
        if entry.Empty? {
          NotInBucket(s, hash, start, d, found);
          if tombstone >= 0 {
            UnbrokenLess(s, start, Steps(start, tombstone, |s|), d);
            index := tombstone;
          }
          assert forall i :: 0 <= i < slots.Length ==> s[i] == slots[i];
          return;
        }
        if entry.Tombstone? {
          if tombstone < 0 {
            tombstone := index;
          }
        } else if found(entry.key) {
          return;
        }
        ProbeOn(s, start, d, end, found);
        index := Next(index);
        d := d + 1;
      }
    }

    /** A hash cut to the capacity. */
    method Masked(h: nat) returns (index: nat)
      requires Valid() && slots.Length > 0
      ensures index == h % slots.Length < slots.Length
    {
      Bits.MaskIsMod(h, slots.Length);
      index := Bits.And(h, slots.Length - 1);
    }

    method Next(i: nat) returns (index: nat)
      requires Valid() && i < slots.Length
      ensures index == if i + 1 == slots.Length then 0 else i + 1
    {
      Bits.MaskIsMod(i + 1, slots.Length);
      index := Bits.And(i + 1, slots.Length - 1);
      WrapOnce(i + 1, slots.Length);
    }

    static lemma WrapOnce(i: nat, n: nat)
      requires 0 < i <= n
      ensures i % n == if i == n then 0 else i
    {
    }

    method FindEntry(key: K) returns (index: nat)
      requires Valid() && slots.Length > 0
      ensures PlaceOf(slots[..], hash, key, index)
      ensures slots[index].Live? <==> key in Contents()
      ensures slots[index].Live? ==> slots[index] == Live(key, Contents()[key])
    {
      index := FindInBucket(hash(key), k => k == key);
      assert forall i :: 0 <= i < slots.Length ==> slots[..][i] == slots[i];
      PlaceTells(slots[..], hash, key, index);
    }

    method Get(key: K) returns (r: Option<V>)
      requires Valid()
      ensures r == if key in Contents() then Some(Contents()[key]) else None
    {
      if count == 0 {
        NoEntries();
        return None;
      }
      var index := FindEntry(key);
      match slots[index]
      case Live(_, value) => return Some(value);
      case _ => return None;
    }

    lemma NoEntries()
      requires Valid() && count == 0
      ensures Contents() == map[]
    {
      EntriesFit(slots[..]);
    }

    /** An entry with hash `h` that `found` accepts. */
    method LookUp(h: nat, found: K -> bool) returns (r: Option<K>)
      requires Valid()
      ensures r.Some? ==> r.value in Contents() && found(r.value)
      ensures r.None? ==> forall k <- Contents() :: hash(k) == h ==> !found(k)
    {
      if count == 0 {
        NoEntries();
        return None;
      }
      var index := FindInBucket(h, found);
      EntriesAgree(slots[..]);
      assert slots[..][index] == slots[index];
      match slots[index]
      case Live(key, _) => return Some(key);
      case _ =>
        KeysAreLive();
        return None;
    }

    /** The keys are those of the live entries. */
    lemma KeysAreLive()
      requires Valid()
      ensures forall i :: 0 <= i < slots.Length && slots[i].Live? ==> slots[i].key in Contents()
      ensures forall k <- Contents() :: exists i :: 0 <= i < slots.Length && slots[i].Live? && slots[i].key == k
    {
      EntriesAgree(slots[..]);
      assert forall i :: 0 <= i < slots.Length ==> slots[..][i] == slots[i];
      forall k <- Contents() ensures exists i :: 0 <= i < slots.Length && slots[i].Live? && slots[i].key == k {
        var i :| 0 <= i < |slots[..]| && slots[..][i] == Live(k, Contents()[k]);
        assert slots[i].Live? && slots[i].key == k;
      }
    }

    predicate NeedsRoom()
      reads this
    {
      count + 1 > slots.Length * 3 / 4
    }

    lemma GrowthFits()
      requires Valid()
      ensures var newCap := Bits.GrowCapacity(slots.Length); newCap >= Bits.MIN_CAPACITY && Bits.IsPowerOf2(newCap)
      ensures |Contents()| + 1 <= Bits.GrowCapacity(slots.Length) * 3 / 4
    {
      hide UniqueKeys;
      hide Findable;
      Bits.GrowKeepsPower(slots.Length);
      EntriesFit(slots[..]);
    }

    method Set(key: K, value: V) returns (isNewKey: bool)
      requires Valid()
      modifies this, slots
      ensures Valid() && Contents() == old(Contents())[key := value]
      ensures isNewKey <==> key !in old(Contents())
      ensures slots == old(slots) || fresh(slots)
    {
      if NeedsRoom() {
        GrowthFits();
        RehashImpl(Bits.GrowCapacity(slots.Length));
      }
      isNewKey := Insert(key, value);
    }

    /** Writes the entry where probing for its key ends. */
    method Insert(key: K, value: V) returns (isNewKey: bool)
      requires Valid() && !NeedsRoom()
      modifies `count, slots
      ensures Valid() && Contents() == old(Contents())[key := value]
      ensures isNewKey <==> key !in old(Contents())
    {
      var index := FindEntry(key);
      isNewKey := !slots[index].Live?;
      PutKeeps(slots[..], count, hash, key, value, index);
      if isNewKey && !slots[index].Tombstone? {
        count := count + 1;
      }
      ghost var before := slots[..];
      slots[index] := Live(key, value);
      assert slots[..] == before[index := Live(key, value)];
    }

    /** Moves every live entry to another buffer, which has room for them, and leaves the
        tombstones behind. */
    method RehashImpl(newCap: nat)
      requires Valid() && newCap >= Bits.MIN_CAPACITY && Bits.IsPowerOf2(newCap) && |Contents()| <= newCap * 3 / 4
      modifies this
      ensures Valid() && Contents() == old(Contents()) && fresh(slots) && slots.Length == newCap
      ensures count == |Contents()|
    {
      hide UniqueKeys;
      hide Findable;
      hide Used;
      hide Entries;
      hide PlaceOf;
      var source, oldCapacity := slots, slots.Length;
      EntriesEmpty(source[..0]);
      EmptyBuffer(newCap);
      for i := 0 to oldCapacity
        invariant fresh(slots) && slots.Length == newCap && source[..] == old(slots[..])
        invariant Valid() && Contents() == Entries(source[..i]) && Compact()
      {
        assert source[..i + 1] == source[..i] + [source[i]];
        EntriesStep(source[..i], source[i]);
        EntriesPrefix(source[..], i + 1);
        assert source[..][..i + 1] == source[..i + 1];
        if !source[i].Live? {
          continue;
        }
        KeyIsNew(source[..], i);
        MoveEntry(source[i].key, source[i].value);
      }
      assert source[..oldCapacity] == source[..];
    }

    /** Without tombstones, all counted entries are live. */
    ghost predicate Compact()
      reads this, slots
    {
      count == |Contents()| && forall j :: 0 <= j < slots.Length ==> !slots[j].Tombstone?
    }

    method EmptyBuffer(newCap: nat)
      requires newCap >= Bits.MIN_CAPACITY && Bits.IsPowerOf2(newCap)
      modifies this
      ensures Valid() && Contents() == map[] && fresh(slots) && slots.Length == newCap && Compact()
    {
      slots := new Slot<K, V>[newCap](_ => Empty);
      count := 0;
      AllEmpty(slots[..]);
    }

    method MoveEntry(key: K, value: V)
      requires Valid() && Compact() && key !in Contents() && count + 1 <= slots.Length * 3 / 4
      modifies `count, slots
      ensures Valid() && Compact() && Contents() == old(Contents())[key := value]
    {
      var index := FindEntry(key);
      PutKeeps(slots[..], count, hash, key, value, index);
      ghost var before := slots[..];
      slots[index] := Live(key, value);
      count := count + 1;
      assert slots[..] == before[index := Live(key, value)];
    }

    method Erase(key: K) returns (erased: bool)
      requires Valid()
      modifies slots
      ensures Valid() && Contents() == old(Contents()) - {key}
      ensures erased <==> key in old(Contents())
      ensures forall i :: 0 <= i < slots.Length ==> slots[i] == old(slots[i]) || slots[i].Tombstone?
    {
      if count == 0 {
        NoEntries();
        return false;
      }
      var index := FindEntry(key);
      if !slots[index].Live? {
        return false;
      }
      EraseKeeps(slots[..], count, hash, index);
      ghost var before := slots[..];
      slots[index] := Tombstone;
      assert slots[..] == before[index := Tombstone];
      return true;
    }

    method AddAllFrom(from: HashMap<K, V>)
      requires Valid() && from.Valid() && from != this && from.slots != slots
      modifies this, slots
      ensures Valid() && Contents() == old(Contents()) + from.Contents()
      ensures slots == old(slots) || fresh(slots)
      ensures from.Valid() && from.Contents() == old(from.Contents())
    {
      hide Table;
      hide Entries;
      EntriesEmpty(from.slots[..0]);
      for i := 0 to from.slots.Length
        invariant Valid() && Contents() == old(Contents()) + Entries(from.slots[..i])
        invariant slots == old(slots) || fresh(slots)
        invariant from.slots[..] == old(from.slots[..])
      {
        assert from.slots[..i + 1] == from.slots[..i] + [from.slots[i]];
        EntriesStep(from.slots[..i], from.slots[i]);
        match from.slots[i]
        case Live(key, value) => var _ := Set(key, value);
        case _ =>
      }
      assert from.slots[..from.slots.Length] == from.slots[..];
    }
  }
}
