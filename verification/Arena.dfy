/** src/arena.c: a bump allocator for the path strings of an index. */
module Arena {
  import opened Common

  class ArenaChunk {
    const id: nat  // stands for the address of the chunk
    const data: array<byte>
    const next: ArenaChunk?
    var used: nat

    constructor (id: nat, capacity: nat, next: ArenaChunk?)
      ensures this.id == id && fresh(data) && data.Length == capacity && used == 0 && this.next == next
    {
      this.id := id;
      data := new byte[capacity];
      used := 0;
      this.next := next;
    }
  }

  /** An address handed out by the arena: a chunk and an offset into it. */
  datatype Ref = Ref(chunk: nat, offset: nat)

  /** A string the arena was asked to keep, and where it lives. */
  datatype Stored = Stored(at: Ref, value: Path)

  /** The C string that starts at `offset`. */
  function StringAt(bytes: seq<byte>, offset: nat): Path
    decreases |bytes| - offset
  {
    if offset >= |bytes| || bytes[offset] == 0 then [] else [bytes[offset]] + StringAt(bytes, offset + 1)
  }

  lemma {:induction false} StringAtReads(bytes: seq<byte>, offset: nat, value: Path)
    requires IsCString(value) && offset + |value| < |bytes|
    requires bytes[offset..offset + |value|] == value && bytes[offset + |value|] == 0
    ensures StringAt(bytes, offset) == value
    decreases |value|
  {
    if value != [] {
      assert bytes[offset] == value[0];
      assert bytes[offset + 1..offset + 1 + |value[1..]|] == value[1..];
      StringAtReads(bytes, offset + 1, value[1..]);
    }
  }

  /** The string and its terminator lie inside the used bytes of a chunk. */
  predicate Inside(used: seq<byte>, s: Stored) {
    && IsCString(s.value)
    && s.at.offset + |s.value| < |used|
    && used[s.at.offset..s.at.offset + |s.value|] == s.value
    && used[s.at.offset + |s.value|] == 0
  }

  lemma InsideLonger(used: seq<byte>, used': seq<byte>, s: Stored)
    requires Inside(used, s) && used <= used'
    ensures Inside(used', s)
  {
    assert used'[..|used|] == used;
    assert used'[s.at.offset..s.at.offset + |s.value|] == used[s.at.offset..s.at.offset + |s.value|];
  }

  /** The two strings share no byte. */
  predicate Apart(s: Stored, t: Stored) {
    s.at.chunk == t.at.chunk ==>
      s.at.offset + |s.value| < t.at.offset || t.at.offset + |t.value| < s.at.offset
  }

  /** Every kept string lies inside its chunk and none overlaps another. */
  predicate Kept(used: seq<seq<byte>>, live: seq<Stored>) {
    && (forall s :: s in live ==> s.at.chunk < |used| && Inside(used[s.at.chunk], s))
    && (forall i, j :: 0 <= i < j < |live| ==> Apart(live[i], live[j]))
  }

  lemma KeptLonger(used: seq<seq<byte>>, used': seq<seq<byte>>, live: seq<Stored>)
    requires Kept(used, live)
    requires |used| <= |used'| && forall i :: 0 <= i < |used| ==> used[i] <= used'[i]
    ensures Kept(used', live)
  {
    forall s | s in live ensures Inside(used'[s.at.chunk], s) {
      InsideLonger(used[s.at.chunk], used'[s.at.chunk], s);
    }
  }

  /** Appending at the end of the used bytes keeps every string and adds one. */
  lemma KeptAppend(used: seq<seq<byte>>, live: seq<Stored>, i: nat, value: Path)
    requires Kept(used, live) && i < |used| && IsCString(value)
    ensures var s := Stored(Ref(i, |used[i]|), value);
            Kept(used[i := used[i] + value + [0]], live + [s])
  {
    var used' := used[i := used[i] + value + [0]];
    var s := Stored(Ref(i, |used[i]|), value);
    KeptLonger(used, used', live);
    assert Inside(used'[i], s) by {
      assert used'[i][|used[i]|..|used[i]| + |value|] == value;
    }
    var live' := live + [s];
    forall a, b | 0 <= a < b < |live'| ensures Apart(live'[a], live'[b]) {
      if b == |live| {
        assert live[a] in live;
      }
    }
  }

  class StringArena {
    const chunkSize: nat
    var head: ArenaChunk?
    ghost var chunks: seq<ArenaChunk>  // the chunk list, oldest first
    ghost var used: seq<seq<byte>>     // the used bytes of each chunk
    ghost var live: seq<Stored>        // every string copied so far, oldest first
    ghost var Repr: set<object>

    ghost predicate Valid()
      reads this, Repr
      ensures Valid() ==> this in Repr
    {
      && this in Repr
      && (forall c :: c in chunks ==> c in Repr && c.data in Repr)
      && |used| == |chunks|
      && (forall i :: 0 <= i < |chunks| ==> HoldsUsed(i))
      && (forall i, j :: 0 <= i < j < |chunks| ==> chunks[i].data != chunks[j].data)
      && (if chunks == [] then head == null else head == chunks[|chunks| - 1])
      && Kept(used, live)
    }

    /** Chunk i agrees with its used bytes. */
    ghost predicate HoldsUsed(i: nat)
      requires i < |chunks| == |used|
      requires forall c :: c in chunks ==> c in Repr && c.data in Repr
      reads this, Repr
    {
      var c := chunks[i];
      c.id == i && c.used == |used[i]| <= c.data.Length && c.data[..c.used] == used[i]
    }

    constructor (chunkSize: nat)
      ensures Valid() && fresh(Repr)
      ensures live == [] && this.chunkSize == chunkSize
    {
      this.chunkSize := chunkSize;
      head := null;
      chunks, used, live := [], [], [];
      Repr := {this};
    }

    /** What a reader finds at the address of a kept string: that string, however many copies
        were made since. */
    lemma KeptStringReads(s: Stored)
      requires Valid() && s in live
      ensures s.at.chunk < |chunks|
      ensures StringAt(chunks[s.at.chunk].data[..], s.at.offset) == s.value
    {
      var bytes := chunks[s.at.chunk].data[..];
      assert HoldsUsed(s.at.chunk);
      InsideLonger(used[s.at.chunk], bytes, s);
      StringAtReads(bytes, s.at.offset, s.value);
    }

    /** No two kept strings share a byte, and none runs past the capacity of its chunk. */
    lemma RegionsApart(i: nat, j: nat)
      requires Valid() && i < j < |live|
      ensures live[i].at.chunk < |chunks|
      ensures live[i].at.offset + |live[i].value| < chunks[live[i].at.chunk].data.Length
      ensures live[i].at.chunk == live[j].at.chunk ==>
                live[i].at.offset + |live[i].value| < live[j].at.offset ||
                live[j].at.offset + |live[j].value| < live[i].at.offset
    {
      assert live[i] in live && Apart(live[i], live[j]);
      assert HoldsUsed(live[i].at.chunk);
    }

    /** An arena nobody has written to is still valid. */
    twostate lemma Untouched()
      requires old(Valid()) && unchanged(this) && forall o :: o in old(Repr) ==> unchanged(o)
      ensures Valid()
    {
    }

    /** `arena_alloc_chunk`. */
    method AllocChunk(minSize: nat, allocOk: bool) returns (ok: bool)
      requires Valid()
      modifies this
      ensures Valid() && fresh(Repr - old(Repr)) && live == old(live) && old(chunks) <= chunks
      ensures ok == allocOk
      ensures ok ==> head != null && head.data.Length - head.used >= minSize && head in Repr
      ensures !ok ==> Repr == old(Repr)
    {
      if !allocOk {
        return false;
      }
      var capacity := chunkSize;
      if capacity < minSize {
        capacity := minSize;
      }
      var chunk := new ArenaChunk(if head == null then 0 else head.id + 1, capacity, head);
      assert head != null ==> HoldsUsed(|chunks| - 1);
      KeptLonger(used, used + [[]], live);
      head := chunk;
      chunks := chunks + [chunk];
      used := used + [[]];
      Repr := Repr + {chunk, chunk.data};
      forall i | 0 <= i < |chunks| - 1 ensures HoldsUsed(i) {
        assert old(HoldsUsed(i));
      }
      return true;
    }

    /** Copies the string and its terminator behind the used bytes of the current chunk. */
    method Write(value: Path)
      requires head != null && head.used <= head.data.Length - |value| - 1
      modifies head`used, head.data
      ensures head.used == old(head.used) + |value| + 1
      ensures head.data[..head.used] == old(head.data[..head.used]) + value + [0]
    {
      var start, data := head.used, head.data;
      forall k | 0 <= k < |value| {
        data[start + k] := value[k];
      }
      data[start + |value|] := 0;
      head.used := start + |value| + 1;
      assert data[..start] == old(data[..start]);
      assert data[start..start + |value|] == value;
      assert data[..head.used] == data[..start] + data[start..start + |value|] + [0];
    }

    method Bump(value: Path) returns (at: Ref)
      requires Valid() && IsCString(value)
      requires head != null && head.data.Length - head.used > |value|
      modifies this`live, this`used, head`used, head.data
      ensures Valid() && live == old(live) + [Stored(at, value)] && chunks == old(chunks)
    {
      assert HoldsUsed(|chunks| - 1);
      at := Ref(head.id, head.used);
      KeptAppend(used, live, head.id, value);
      Write(value);
      used := used[head.id := used[head.id] + value + [0]];
      live := live + [Stored(at, value)];
      forall i | 0 <= i < |chunks| - 1 ensures HoldsUsed(i) {
        assert old(HoldsUsed(i));
      }
    }

    /** `string_arena_copy`: NULL (None) only when a new chunk is needed and cannot be had. */
    method Copy(value: Path, allocOk: bool) returns (at: Option<Ref>)
      requires Valid() && IsCString(value)
      modifies Repr
      ensures Valid() && fresh(Repr - old(Repr)) && old(chunks) <= chunks
      ensures at.None? ==> !allocOk && live == old(live)
      ensures at.Some? ==> live == old(live) + [Stored(at.value, value)]
      ensures old(head != null && head.data.Length - head.used > |value|) ==> at.Some?
    {
      if head == null || head.data.Length - head.used < |value| + 1 {
        var ok := AllocChunk(|value| + 1, allocOk);
        if !ok {
          return None;
        }
      }
      var address := Bump(value);
      return Some(address);
    }
  }
}
