/** src/index.c:9-148: the path index, a growing open-addressing table whose keys live in a
    string arena. Proved to be a map for every hash function. */
module FileIndex {
  import opened Common
  import opened Words
  import opened Arena
  import opened Slots

  /** sizeof(IndexSlot) on a 64-bit machine; `calloc` refuses a table of 2^64 bytes or more. */
  const SLOT_SIZE: nat := 48

  predicate CallocFits(capacity: nat) {
    capacity * SLOT_SIZE < TWO64
  }

  /** With fewer files than this no table ever has to grow beyond what `calloc` grants. */
  const FILE_LIMIT: nat := 0x100_0000_0000_0000

  /** The table is sound for this hash function and holds the bindings of m. */
  ghost predicate Sound(slots: seq<IndexSlot>, hash: Path -> nat, m: map<Path, nat>) {
    WellPlaced(slots, hash) && UniqueKeys(slots) && Represents(slots, m)
  }

  /** Every key is a string the arena keeps at the address stored with it. */
  ghost predicate KeysKept(slots: seq<IndexSlot>, live: seq<Stored>) {
    forall s :: s in slots && s.Occupied? ==> Stored(s.at, s.key) in live
  }

  /** What every public operation of the index finds and leaves behind. */
  ghost predicate TableOk(slots: seq<IndexSlot>, hash: Path -> nat, m: map<Path, nat>, live: seq<Stored>) {
    && IsPow2(|slots|) && 16 <= |slots| && CallocFits(|slots|)
    && Sound(slots, hash, m) && KeysKept(slots, live)
    && Load(slots) == |m|
    && |m| * 10 < |slots| * 7
  }

  /** `probe_index`. */
  function ProbeIndex(hash: nat, capacity: nat): nat
    requires capacity > 0
  {
    BitAnd(hash, capacity - 1)
  }

  lemma ProbeStart(hash: nat, capacity: nat)
    requires IsPow2(capacity)
    ensures ProbeIndex(hash, capacity) == hash % capacity == Around(hash % capacity, 0, capacity)
  {
    MaskIsMod(hash, capacity);
  }

  /** The masked increment of the probe loops goes once round the table. */
  lemma ProbeStep(home: nat, d: nat, capacity: nat)
    requires IsPow2(capacity) && home < capacity && d < capacity
    ensures BitAnd(Around(home, d, capacity) + 1, capacity - 1) == Around(home, d + 1, capacity)
  {
    var next := Around(home, d, capacity) + 1;
    MaskIsMod(next, capacity);
    if next == capacity {
      ModUnique(next, capacity, 1, 0);
    } else {
      ModUnique(next, capacity, 0, next);
    }
  }

  /** The probe loop of `file_index_rehash`: puts an entry into the first vacant slot. */
  method PlaceEntry(table: array<IndexSlot>, e: IndexSlot, ghost hash: Path -> nat)
    requires IsPow2(table.Length) && WellPlaced(table[..], hash) && UniqueKeys(table[..])
    requires Load(table[..]) < table.Length
    requires e.Occupied? && e.hash == hash(e.key)
    requires forall s :: s in table[..] && s.Occupied? ==> s.key != e.key
    modifies table
    ensures WellPlaced(table[..], hash) && UniqueKeys(table[..])
    ensures Load(table[..]) == old(Load(table[..])) + 1
    ensures forall s: IndexSlot :: s.Occupied? ==> (s in table[..] <==> s in old(table[..]) || s == e)
  {
    ghost var n, before := table.Length, table[..];
    ghost var v := VacancyExists(table[..]);
    ghost var home := e.hash % n;
    ghost var d := 0;
    ProbeStart(e.hash, n);
    var pos := ProbeIndex(e.hash, table.Length);
    while table[pos].Occupied?
      invariant table[..] == before
      invariant d <= Distance(home, v, n) && pos == Around(home, d, n)
      invariant forall k :: 0 <= k < d ==> table[Around(home, k, n)].Occupied?
      decreases Distance(home, v, n) - d
    {
      assert d != Distance(home, v, n) by {
        assert before[v].Vacant? && before[pos].Occupied?;
      }
      ProbeStep(home, d, n);
      pos := BitAnd(pos + 1, table.Length - 1);
      d := d + 1;
    }
    assert Chain(before, home, pos);
    PlaceKeeps(before, hash, pos, e);
    LoadUpdate(before, pos, e);
    table[pos] := e;
    assert table[..] == before[pos := e];
    SetAddsOne(before, pos, e);
  }

  lemma SetAddsOne(slots: seq<IndexSlot>, pos: nat, e: IndexSlot)
    requires pos < |slots| && slots[pos].Vacant?
    ensures forall s: IndexSlot :: s.Occupied? ==> (s in slots[pos := e] <==> s in slots || s == e)
  {
    forall s: IndexSlot | s.Occupied? ensures s in slots[pos := e] <==> s in slots || s == e {
      assert slots[pos := e][pos] == e;
      if s in slots {
        var i :| 0 <= i < |slots| && slots[i] == s;
        assert slots[pos := e][i] == s;
      }
    }
  }

  /** The probe loop of `file_index_find_slot`. */
  method FindSlot(table: array<IndexSlot>, path: Path, h: nat, ghost hash: Path -> nat, ghost m: map<Path, nat>)
    returns (found: bool, pos: nat)
    requires IsPow2(table.Length) && Sound(table[..], hash, m) && Load(table[..]) < table.Length
    requires h == hash(path)
    ensures pos < table.Length
    ensures found <==> path in m
    ensures found ==> table[pos].Occupied? && table[pos].key == path && table[pos].size == m[path]
    ensures !found ==> table[pos].Vacant? && Chain(table[..], h % table.Length, pos)
  {
    hide IsPow2, BitAnd, ProbeIndex, StrCmp, Load;
    ghost var n, slots := table.Length, table[..];
    ghost var v := VacancyExists(slots);
    ghost var home := h % n;
    ghost var d := 0;
    ProbeStart(h, n);
    pos := ProbeIndex(h, table.Length);
    while table[pos].Occupied?
      invariant d <= Distance(home, v, n) && pos == Around(home, d, n)
      invariant forall k :: 0 <= k < d ==> slots[Around(home, k, n)].Occupied? && slots[Around(home, k, n)].key != path
      decreases Distance(home, v, n) - d
    {
      if table[pos].hash == h && StrCmp(table[pos].key, path) == 0 {
        assert slots[pos] in slots;
        return true, pos;
      }
      assert slots[pos].hash == hash(slots[pos].key);
      ProbeStep(home, d, n);
      pos := BitAnd(pos + 1, table.Length - 1);
      d := d + 1;
    }
    ProbeMisses(slots, hash, path, pos);
    found := false;
  }

  /** The loop of `file_index_rehash`: moves the occupied slots of one table into another. */
  method MoveEntries(from: array<IndexSlot>, to: array<IndexSlot>, ghost hash: Path -> nat, ghost m: map<Path, nat>)
    returns (moved: nat)
    requires from != to && IsPow2(to.Length)
    requires Sound(from[..], hash, m) && Load(from[..]) < to.Length
    requires forall i :: 0 <= i < to.Length ==> to[i].Vacant?
    modifies to
    ensures Sound(to[..], hash, m) && SameEntries(from[..], to[..])
    ensures moved == Load(to[..]) == Load(from[..])
  {
    moved := 0;
    AllVacant(to[..]);
    ghost var old_ := from[..];
    for i := 0 to from.Length
      invariant from[..] == old_
      invariant WellPlaced(to[..], hash) && UniqueKeys(to[..])
      invariant moved == Load(to[..]) == Load(old_[..i])
      invariant SameEntries(old_[..i], to[..])
    {
      PrefixGrows(old_, i);
      if from[i].Vacant? {
        continue;
      }
      KeyIsNew(old_, to[..], i);
      PlaceEntry(to, from[i], hash);
      moved := moved + 1;
    }
    assert old_[..from.Length] == old_;
    SameMap(old_, to[..], m);
  }

  /** Adding slot i to the part of the table already moved. */
  lemma PrefixGrows(slots: seq<IndexSlot>, i: nat)
    requires i < |slots|
    ensures slots[..i + 1] == slots[..i] + [slots[i]]
    ensures Load(slots[..i + 1]) == Load(slots[..i]) + (if slots[i].Occupied? then 1 else 0)
    ensures Load(slots[..i + 1]) <= Load(slots)
  {
    LoadConcat(slots[..i], [slots[i]]);
    PrefixLighter(slots, i + 1);
  }

  lemma PrefixLighter(slots: seq<IndexSlot>, i: nat)
    requires i <= |slots|
    ensures Load(slots[..i]) <= Load(slots)
  {
    assert slots == slots[..i] + slots[i..];
    LoadConcat(slots[..i], slots[i..]);
  }

  lemma MovedOk(s: seq<IndexSlot>, t: seq<IndexSlot>, hash: Path -> nat, m: map<Path, nat>, live: seq<Stored>)
    requires TableOk(s, hash, m, live) && SameEntries(s, t)
    requires Sound(t, hash, m) && Load(t) == Load(s)
    requires IsPow2(|t|) && |s| <= |t| && CallocFits(|t|)
    ensures TableOk(t, hash, m, live)
  {
  }

  method LargerTable(old_: array<IndexSlot>, capacity: nat, ghost hash: Path -> nat, ghost m: map<Path, nat>,
                     ghost live: seq<Stored>)
    returns (table: array<IndexSlot>, moved: nat)
    requires TableOk(old_[..], hash, m, live)
    requires IsPow2(capacity) && old_.Length <= capacity && CallocFits(capacity)
    ensures fresh(table) && table.Length == capacity
    ensures TableOk(table[..], hash, m, live) && moved == |m|
  {
    table := new IndexSlot[capacity](_ => Vacant);
    moved := MoveEntries(old_, table, hash, m);
    MovedOk(old_[..], table[..], hash, m, live);
  }

  lemma KeyIsNew(slots: seq<IndexSlot>, moved: seq<IndexSlot>, i: nat)
    requires UniqueKeys(slots) && i < |slots| && slots[i].Occupied?
    requires SameEntries(slots[..i], moved)
    ensures forall s :: s in moved && s.Occupied? ==> s.key != slots[i].key
  {
    forall s | s in moved && s.Occupied? ensures s.key != slots[i].key {
      var j :| 0 <= j < i && slots[..i][j] == s;
      assert slots[j] == s;
    }
  }

  class FileIndex {
    const hash: Path -> nat
    const arena: StringArena
    var slots: array<IndexSlot>
    var count: nat
    ghost var contents: map<Path, nat>  // path to size

    /** The table; the arena has a `Valid` of its own. */
    ghost predicate Valid()
      reads this, slots, arena`live, arena`Repr
    {
      && this !in arena.Repr && slots !in arena.Repr
      && TableOk(slots[..], hash, contents, arena.live)
      && count == |contents|
    }

    /** `file_index_init`, when the table can be allocated. */
    constructor (hash: Path -> nat, initialCapacity: nat)
      requires initialCapacity <= TWO63 && CallocFits(2 * initialCapacity + 16)
      ensures Valid() && arena.Valid() && fresh(slots) && fresh(arena) && fresh(arena.Repr)
      ensures contents == map[] && this.hash == hash
    {
      this.hash := hash;
      arena := new StringArena(0x10_0000);
      var capacity := NextPow2(if initialCapacity == 0 then 16 else initialCapacity);
      slots := new IndexSlot[capacity](_ => Vacant);
      count := 0;
      contents := map[];
      new;
      AllVacant(slots[..]);
    }

    /** `file_index_find`: the size last stored for the path, or nothing. */
    method Find(path: Path) returns (size: Option<nat>)
      requires Valid()
      ensures size == if path in contents then Some(contents[path]) else None
    {
      var found, pos := FindSlot(slots, path, hash(path), hash, contents);
      size := if found then Some(slots[pos].size) else None;
    }

    /** The key pointer of every occupied slot still leads to the string of the key, after any upserts
        and rehashes. */
    lemma KeyReadsBack(i: nat)
      requires Valid() && arena.Valid() && i < slots.Length && slots[i].Occupied?
      ensures slots[i].at.chunk < |arena.chunks|
      ensures StringAt(arena.chunks[slots[i].at.chunk].data[..], slots[i].at.offset) == slots[i].key
    {
      assert slots[i] in slots[..];
      arena.KeptStringReads(Stored(slots[i].at, slots[i].key));
    }

    /** `file_index_rehash`: the same map in a larger table. */
    method Rehash(newCapacity: nat, allocOk: bool) returns (rc: Errno)
      requires Valid() && IsPow2(newCapacity) && slots.Length <= newCapacity
      modifies this`slots, this`count
      ensures Valid() && count == old(count)
      ensures rc == if allocOk && CallocFits(newCapacity) then OK else ENOMEM
      ensures if rc == OK then fresh(slots) && slots.Length == newCapacity else slots == old(slots)
    {
      if !allocOk || !CallocFits(newCapacity) {
        return ENOMEM;
      }
      var table, moved := LargerTable(slots, newCapacity, hash, contents, arena.live);
      slots, count := table, moved;
      rc := OK;
    }

    /** Fills a vacant slot with a new key. */
    method Fill(slot: nat, path: Path, at: Ref, size: nat)
      requires Valid() && arena.Valid() && slot < slots.Length && slots[slot].Vacant?
      requires path !in contents && Chain(slots[..], hash(path) % slots.Length, slot)
      requires Stored(at, path) in arena.live && (count + 1) * 10 < slots.Length * 7
      modifies this`count, this`contents, slots
      ensures Valid() && arena.Valid() && contents == old(contents)[path := size]
    {
      ghost var before, e := slots[..], Occupied(path, at, size, hash(path));
      FillOk(before, hash, contents, arena.live, slot, e);
      slots[slot] := Occupied(path, at, size, hash(path));
      assert slots[..] == before[slot := e];
      count := count + 1;
      contents := contents[path := size];
      arena.Untouched();
    }

    /** Stores another size for a key that is present. */
    method Overwrite(slot: nat, size: nat)
      requires Valid() && arena.Valid() && slot < slots.Length && slots[slot].Occupied?
      modifies this`contents, slots
      ensures Valid() && arena.Valid() && contents == old(contents)[old(slots[slot].key) := size]
    {
      ghost var before, e := slots[..], slots[slot].(size := size);
      OverwriteOk(before, hash, contents, arena.live, slot, size);
      slots[slot] := slots[slot].(size := size);
      assert slots[..] == before[slot := e];
      contents := contents[e.key := size];
      arena.Untouched();
    }

    /** The load check of `file_index_upsert`: room for one more key, or failure. */
    method EnsureRoom(growOk: bool) returns (rc: Errno)
      requires Valid() && arena.Valid()
      modifies this`slots, this`count
      ensures Valid() && arena.Valid() && (slots == old(slots) || fresh(slots))
      ensures rc == if (|contents| + 1) * 10 < old(slots.Length) * 7 || (growOk && CallocFits(2 * old(slots.Length)))
                    then OK else ENOMEM
      ensures rc == OK ==> (|contents| + 1) * 10 < slots.Length * 7
    {
      hide StringArena.Valid, Sound, KeysKept, Word;
      WordExact((count + 1) * 10);
      WordExact(slots.Length * 7);
      WordExact(2 * slots.Length);
      rc := OK;
      if Word((count + 1) * 10) >= Word(slots.Length * 7) {
        Pow2Doubles(slots.Length);
        rc := Rehash(Word(2 * slots.Length), growOk);
        arena.Untouched();
      }
    }

    /** A new key: its string goes into the arena, its slot into the table. */
    method StoreNew(slot: nat, path: Path, size: nat, copyOk: bool) returns (rc: Errno)
      requires Valid() && arena.Valid() && IsCString(path)
      requires slot < slots.Length && slots[slot].Vacant? && path !in contents
      requires Chain(slots[..], hash(path) % slots.Length, slot) && (count + 1) * 10 < slots.Length * 7
      modifies this`count, this`contents, slots, arena.Repr
      ensures Valid() && arena.Valid() && fresh(arena.Repr - old(arena.Repr))
      ensures rc == OK || (rc == ENOMEM && !copyOk)
      ensures contents == if rc == OK then old(contents)[path := size] else old(contents)
    {
      hide TableOk, StringArena.Valid;
      ghost var entries, live := slots[..], arena.live;
      var stored := arena.Copy(path, copyOk);
      assert slots[..] == entries && TableOk(entries, hash, contents, live);
      if stored.None? {
        return ENOMEM;
      }
      LiveGrows(entries, hash, contents, live, arena.live);
      Fill(slot, path, stored.value, size);
      rc := OK;
    }

    /** The rest of `file_index_upsert`. */
    method Store(path: Path, size: nat, copyOk: bool) returns (rc: Errno)
      requires Valid() && arena.Valid() && IsCString(path)
      requires (count + 1) * 10 < slots.Length * 7
      modifies this`count, this`contents, slots, arena.Repr
      ensures Valid() && arena.Valid() && fresh(arena.Repr - old(arena.Repr))
      ensures rc == OK || (rc == ENOMEM && !copyOk)
      ensures contents == if rc == OK then old(contents)[path := size] else old(contents)
    {
      var found, slot := FindSlot(slots, path, hash(path), hash, contents);
      hide TableOk, StringArena.Valid;
      arena.Untouched();
      if found {
        rc := OK;
        Overwrite(slot, size);
      } else {
        rc := StoreNew(slot, path, size, copyOk);
      }
    }

    /** `file_index_upsert`. A failed allocation leaves the map as it was. */
    method Upsert(path: Path, size: nat, growOk: bool, copyOk: bool) returns (rc: Errno)
      requires Valid() && arena.Valid() && IsCString(path)
      modifies this, slots, arena.Repr
      ensures Valid() && arena.Valid()
      ensures (slots == old(slots) || fresh(slots)) && fresh(arena.Repr - old(arena.Repr))
      ensures rc == OK || rc == ENOMEM
      ensures growOk && copyOk && CallocFits(2 * old(slots.Length)) ==> rc == OK
      ensures growOk && copyOk && |old(contents)| < FILE_LIMIT ==> rc == OK
      ensures contents == if rc == OK then old(contents)[path := size] else old(contents)
    {
      hide TableOk, StringArena.Valid;
      rc := EnsureRoom(growOk);
      assert arena.Repr == old(arena.Repr);
      if rc == OK {
        rc := Store(path, size, copyOk);
      }
    }
  }

  lemma LiveGrows(slots: seq<IndexSlot>, hash: Path -> nat, m: map<Path, nat>, live: seq<Stored>, live': seq<Stored>)
    requires TableOk(slots, hash, m, live) && forall s :: s in live ==> s in live'
    ensures TableOk(slots, hash, m, live')
  {
  }

  lemma FillOk(slots: seq<IndexSlot>, hash: Path -> nat, m: map<Path, nat>, live: seq<Stored>, pos: nat, e: IndexSlot)
    requires TableOk(slots, hash, m, live) && pos < |slots| && slots[pos].Vacant?
    requires e.Occupied? && e.hash == hash(e.key) && e.key !in m && Stored(e.at, e.key) in live
    requires Chain(slots, e.hash % |slots|, pos) && (|m| + 1) * 10 < |slots| * 7
    ensures TableOk(slots[pos := e], hash, m[e.key := e.size], live)
  {
    PlaceKeeps(slots, hash, pos, e);
    PlaceRepresents(slots, m, pos, e);
    LoadUpdate(slots, pos, e);
    SetAddsOne(slots, pos, e);
  }

  lemma OverwriteOk(slots: seq<IndexSlot>, hash: Path -> nat, m: map<Path, nat>, live: seq<Stored>, pos: nat, size: nat)
    requires TableOk(slots, hash, m, live) && pos < |slots| && slots[pos].Occupied?
    ensures var e := slots[pos].(size := size); TableOk(slots[pos := e], hash, m[e.key := size], live)
  {
    var e := slots[pos].(size := size);
    PlaceRepresents(slots, m, pos, e);
    LoadUpdate(slots, pos, e);
    OverwritePlaced(slots, hash, pos, e);
    assert slots[pos] in slots;
    assert m[e.key := size].Keys == m.Keys;
    forall s | s in slots[pos := e] && s.Occupied? ensures Stored(s.at, s.key) in live {
      var i :| 0 <= i < |slots| && slots[pos := e][i] == s;
      assert slots[i] in slots;
    }
  }

  lemma OverwritePlaced(slots: seq<IndexSlot>, hash: Path -> nat, pos: nat, e: IndexSlot)
    requires WellPlaced(slots, hash) && UniqueKeys(slots)
    requires pos < |slots| && slots[pos].Occupied? && e.Occupied? && e.key == slots[pos].key
    requires e.hash == slots[pos].hash
    ensures WellPlaced(slots[pos := e], hash) && UniqueKeys(slots[pos := e])
  {
    var slots' := slots[pos := e];
    forall i | 0 <= i < |slots| && slots'[i].Occupied?
      ensures slots'[i].hash == hash(slots'[i].key) && Chain(slots', slots'[i].hash % |slots|, i)
    {
      assert Chain(slots, slots[i].hash % |slots|, i);
    }
  }

  lemma {:induction false} AllVacant(slots: seq<IndexSlot>)
    requires forall i :: 0 <= i < |slots| ==> slots[i].Vacant?
    ensures Load(slots) == 0
  {
    if slots != [] {
      AllVacant(slots[1..]);
    }
  }
}
