/** The open-addressing table of src/index.c as a value: linear probing with wrap-around, no
    deletion, and any hash function whatever. */
module Slots {
  import opened Common
  import opened Arena

  /** `key` is the string at address `at`; `hash` is the cached hash of the key. */
  datatype IndexSlot = Vacant | Occupied(key: Path, at: Ref, size: nat, hash: nat)

  /** The slot d steps after `home`, wrapping round at the end of the table. */
  function Around(home: nat, d: nat, capacity: nat): (pos: nat)
    requires home < capacity && d <= capacity
    ensures pos < capacity
  {
    if home + d < capacity then home + d else home + d - capacity
  }

  /** How many steps lead from `home` to `pos`. */
  function Distance(home: nat, pos: nat, capacity: nat): (d: nat)
    requires home < capacity && pos < capacity
    ensures d < capacity && Around(home, d, capacity) == pos
  {
    if pos >= home then pos - home else pos + capacity - home
  }

  /** Every slot passed on the way from `home` to `pos` is taken. */
  ghost predicate Chain(slots: seq<IndexSlot>, home: nat, pos: nat)
    requires home < |slots| && pos < |slots|
  {
    forall d :: 0 <= d < Distance(home, pos, |slots|) ==> slots[Around(home, d, |slots|)].Occupied?
  }

  ghost predicate WellPlaced(slots: seq<IndexSlot>, hash: Path -> nat) {
    && |slots| > 0
    && (forall i :: 0 <= i < |slots| && slots[i].Occupied? ==>
          slots[i].hash == hash(slots[i].key) && Chain(slots, slots[i].hash % |slots|, i))
  }

  ghost predicate UniqueKeys(slots: seq<IndexSlot>) {
    forall i, j :: 0 <= i < j < |slots| && slots[i].Occupied? && slots[j].Occupied? ==> slots[i].key != slots[j].key
  }

  /** The table holds exactly the bindings of m. */
  ghost predicate Represents(slots: seq<IndexSlot>, m: map<Path, nat>) {
    && (forall s :: s in slots && s.Occupied? ==> s.key in m && m[s.key] == s.size)
    && (forall p :: p in m ==> exists s :: s in slots && s.Occupied? && s.key == p)
  }

  function Load(slots: seq<IndexSlot>): (n: nat)
    ensures n <= |slots|
  {
    if slots == [] then 0 else (if slots[0].Occupied? then 1 else 0) + Load(slots[1..])
  }

  lemma {:induction false} LoadConcat(s: seq<IndexSlot>, t: seq<IndexSlot>)
    ensures Load(s + t) == Load(s) + Load(t)
  {
    if s == [] {
      assert s + t == t;
    } else {
      assert (s + t)[1..] == s[1..] + t;
      LoadConcat(s[1..], t);
    }
  }

  lemma LoadUpdate(slots: seq<IndexSlot>, pos: nat, e: IndexSlot)
    requires pos < |slots| && e.Occupied?
    ensures Load(slots[pos := e]) == Load(slots) + (if slots[pos].Occupied? then 0 else 1)
  {
    assert slots == slots[..pos] + ([slots[pos]] + slots[pos + 1..]);
    assert slots[pos := e] == slots[..pos] + ([e] + slots[pos + 1..]);
    LoadConcat(slots[..pos], [slots[pos]] + slots[pos + 1..]);
    LoadConcat(slots[..pos], [e] + slots[pos + 1..]);
  }

  /** A table that is not full has a vacant slot for every probe to stop at. */
  lemma {:induction false} VacancyExists(slots: seq<IndexSlot>) returns (v: nat)
    requires Load(slots) < |slots|
    ensures v < |slots| && slots[v].Vacant?
  {
    if slots[0].Vacant? {
      v := 0;
    } else {
      var w := VacancyExists(slots[1..]);
      v := w + 1;
    }
  }

  /** A probe stops at the first vacant slot or at the key: if the slots before `pos` hold other
      keys and `pos` is vacant, the key is nowhere in the table. */
  lemma ProbeMisses(slots: seq<IndexSlot>, hash: Path -> nat, path: Path, pos: nat)
    requires WellPlaced(slots, hash) && pos < |slots| && slots[pos].Vacant?
    requires var home := hash(path) % |slots|;
             forall d :: 0 <= d < Distance(home, pos, |slots|) ==>
               slots[Around(home, d, |slots|)].Occupied? && slots[Around(home, d, |slots|)].key != path
    ensures forall s :: s in slots && s.Occupied? ==> s.key != path
  {
    var n := |slots|;
    var home := hash(path) % n;
    forall i | 0 <= i < n && slots[i].Occupied? ensures slots[i].key != path {
      var d, e := Distance(home, i, n), Distance(home, pos, n);
      assert Chain(slots, slots[i].hash % n, i);
      if d < e {
        assert slots[Around(home, d, n)].key != path;
      }
    }
  }

  /** Taking the first vacant slot on the probe path of a new key keeps the table sound. */
  lemma PlaceKeeps(slots: seq<IndexSlot>, hash: Path -> nat, pos: nat, e: IndexSlot)
    requires WellPlaced(slots, hash) && UniqueKeys(slots)
    requires e.Occupied? && e.hash == hash(e.key)
    requires pos < |slots| && slots[pos].Vacant? && Chain(slots, e.hash % |slots|, pos)
    requires forall s :: s in slots && s.Occupied? ==> s.key != e.key
    ensures WellPlaced(slots[pos := e], hash) && UniqueKeys(slots[pos := e])
  {
    var slots' := slots[pos := e];
    forall i | 0 <= i < |slots| && slots'[i].Occupied?
      ensures slots'[i].hash == hash(slots'[i].key) && Chain(slots', slots'[i].hash % |slots|, i)
    {
      assert Chain(slots, slots'[i].hash % |slots|, i);
    }
    forall i, j | 0 <= i < j < |slots| && slots'[i].Occupied? && slots'[j].Occupied?
      ensures slots'[i].key != slots'[j].key
    {
      assert slots[i] in slots && slots[j] in slots;
    }
  }

  lemma PlaceRepresents(slots: seq<IndexSlot>, m: map<Path, nat>, pos: nat, e: IndexSlot)
    requires Represents(slots, m) && pos < |slots| && e.Occupied?
    requires slots[pos].Vacant? || slots[pos].key == e.key
    requires UniqueKeys(slots)
    requires slots[pos].Vacant? ==> e.key !in m
    ensures Represents(slots[pos := e], m[e.key := e.size])
  {
    var slots', m' := slots[pos := e], m[e.key := e.size];
    forall s | s in slots' && s.Occupied? ensures s.key in m' && m'[s.key] == s.size {
      var i :| 0 <= i < |slots'| && slots'[i] == s;
      if i != pos {
        assert slots[i] in slots;
        if slots[pos].Occupied? {
          assert s.key != e.key;
        }
      }
    }
    forall p | p in m' ensures exists s :: s in slots' && s.Occupied? && s.key == p {
      if p == e.key {
        assert slots'[pos] == e && e in slots';
      } else {
        var s :| s in slots && s.Occupied? && s.key == p;
        var i :| 0 <= i < |slots| && slots[i] == s;
        assert slots'[i] == s && s in slots';
      }
    }
  }

  /** The same occupied slots, in whatever positions. */
  ghost predicate SameEntries(s: seq<IndexSlot>, t: seq<IndexSlot>) {
    forall e: IndexSlot :: e.Occupied? ==> (e in s <==> e in t)
  }

  /** Moving every entry into another table leaves the map as it was. */
  lemma SameMap(s: seq<IndexSlot>, t: seq<IndexSlot>, m: map<Path, nat>)
    requires SameEntries(s, t) && Represents(s, m)
    ensures Represents(t, m)
  {
    forall p | p in m ensures exists e :: e in t && e.Occupied? && e.key == p {
      var e :| e in s && e.Occupied? && e.key == p;
      assert e in t;
    }
  }
}
