/** The status table keeps agreeing with the entry table through evictions, placements,
    deletions and compactions; and what that makes of the choice of victims. */
module Agreement {
  import opened EntryTable
  import opened Storage
  import opened Compaction
  import opened Slots

  // ----- atomic slots are the slots of atomic entries -----

  /** `entry_table_atomic_entries_count`. */
  function AtomicCount(t: seq<Entry>, es: nat): nat {
    if t == [] then 0
    else AtomicCount(t[..|t| - 1], es) + if IsAtomic(t[|t| - 1], es) then 1 else 0
  }

  /** An atomic slot is the one slot of an atomic entry with its key. */
  lemma AtomicSlotOwner(t: seq<Entry>, es: nat, total: nat, slots: seq<Slot>, x: nat) returns (e: Entry)
    requires es >= 1 && WellPlaced(t, es, total) && |slots| == total && Tracks(t, es, slots)
    requires x < |slots| && slots[x].kind == AtomicSlot
    ensures e in t && e.number == x && e.key == slots[x].key && IsAtomic(e, es) && Blocks(e.size, es) == 1
    ensures e.size == slots[x].spaceUsed
  {
    assert Occupied(t, es, x);
    var j :| 0 <= j < |t| && t[j].number <= x < End(t[j], es);
    e := t[j];
    assert e in t && Covers(e, es, x);
    assert Matches(slots[x], e, es);
  }

  lemma EntrySlots(t: seq<Entry>, es: nat, total: nat, slots: seq<Slot>, e: Entry, q: nat)
    requires es >= 1 && WellPlaced(t, es, total) && |slots| == total && Tracks(t, es, slots)
    requires e in t && Covers(e, es, q)
    ensures q < |slots| && Matches(slots[q], e, es)
  {
    assert Inside(e, es, total);
  }

  /** If every atomic slot is listed, the list is at least as long as the count of atomic entries. */
  lemma {:induction false} AtomicsListed(t: seq<Entry>, es: nat, listed: set<nat>)
    requires es >= 1 && Disjoint(t, es)
    requires forall i :: 0 <= i < |t| ==> t[i].size >= 1 && 0 <= t[i].number
    requires forall i :: 0 <= i < |t| && IsAtomic(t[i], es) ==> t[i].number in listed
    ensures AtomicCount(t, es) <= |listed|
  {
    if t != [] {
      var front, e := t[..|t| - 1], t[|t| - 1];
      if IsAtomic(e, es) {
        forall i | 0 <= i < |front|
          ensures front[i].number != e.number
        {
          assert End(t[i], es) <= t[|t| - 1].number;
        }
        AtomicsListed(front, es, listed - {e.number});
      } else {
        AtomicsListed(front, es, listed);
      }
    }
  }

  ghost function ElementsOf(s: seq<nat>): set<nat> {
    set x | x in s
  }

  lemma {:induction false} SetOfSeq(s: seq<nat>)
    ensures |ElementsOf(s)| <= |s|
  {
    if s != [] {
      var front := s[..|s| - 1];
      SetOfSeq(front);
      assert ElementsOf(s) == ElementsOf(front) + {s[|s| - 1]};
      assert |ElementsOf(front) + {s[|s| - 1]}| <= |ElementsOf(front)| + 1;
    }
  }

  /** A list of every atomic slot is at least as long as the count of atomic entries. */
  lemma AllAtomics(t: seq<Entry>, es: nat, total: nat, slots: seq<Slot>, r: seq<nat>)
    requires es >= 1 && WellPlaced(t, es, total) && |slots| == total && Tracks(t, es, slots)
    requires forall x: nat :: x < |slots| && slots[x].kind == AtomicSlot ==> x in r
    ensures AtomicCount(t, es) <= |r|
  {
    forall i | 0 <= i < |t|
      ensures t[i].size >= 1 && 0 <= t[i].number
      ensures IsAtomic(t[i], es) ==> t[i].number in ElementsOf(r)
    {
      assert t[i] in t && Inside(t[i], es, total);
      EntrySlots(t, es, total, slots, t[i], t[i].number);
    }
    AtomicsListed(t, es, ElementsOf(r));
    SetOfSeq(r);
  }

  /** An order that visits every slot finds all the victims that are asked for. */
  lemma EnoughVictims(t: seq<Entry>, es: nat, total: nat, slots: seq<Slot>, order: seq<nat>, n: nat)
    requires es >= 1 && WellPlaced(t, es, total) && |slots| == total && Tracks(t, es, slots)
    requires InRange(order, |slots|) && forall x: nat :: x < |slots| ==> x in order
    requires n <= AtomicCount(t, es)
    ensures |Picked(slots, order, n)| == n
  {
    var r := Picked(slots, order, n);
    if |r| < n {
      forall x: nat | x < |slots| && slots[x].kind == AtomicSlot
        ensures x in r
      {
        PickedAll(slots, order, n, x);
      }
      AllAtomics(t, es, total, slots, r);
    }
  }

  // ----- eviction -----

  ghost predicate DistinctKeys(ks: seq<Key>) {
    forall i, j :: 0 <= i < j < |ks| ==> ks[i] != ks[j]
  }

  /** Victims: distinct slots, all of them atomic. */
  ghost predicate Victims(slots: seq<Slot>, picked: seq<nat>) {
    && InRange(picked, |slots|)
    && Distinct(picked)
    && forall i :: 0 <= i < |picked| ==> slots[picked[i]].kind == AtomicSlot
  }

  lemma VictimKeys(t: seq<Entry>, es: nat, total: nat, slots: seq<Slot>, picked: seq<nat>)
    requires es >= 1 && WellPlaced(t, es, total) && |slots| == total && Tracks(t, es, slots)
    requires Victims(slots, picked)
    ensures DistinctKeys(KeysAt(slots, picked))
    ensures forall i :: 0 <= i < |picked| ==>
              Has(t, KeysAt(slots, picked)[i]) && EntryOf(t, KeysAt(slots, picked)[i]).number == picked[i]
    ensures forall i :: 0 <= i < |picked| ==> Blocks(EntryOf(t, KeysAt(slots, picked)[i]).size, es) == 1
  {
    var ks := KeysAt(slots, picked);
    forall i | 0 <= i < |picked|
      ensures Has(t, ks[i]) && EntryOf(t, ks[i]).number == picked[i] && Blocks(EntryOf(t, ks[i]).size, es) == 1
    {
      var e := AtomicSlotOwner(t, es, total, slots, picked[i]);
      KeyHasOneEntry(t, e);
    }
  }

  lemma {:induction false} PurgeFrees(t: seq<Entry>, es: nat, total: nat, ks: seq<Key>)
    requires es >= 1 && WellPlaced(t, es, total) && DistinctKeys(ks)
    requires forall i :: 0 <= i < |ks| ==> Has(t, ks[i]) && Blocks(EntryOf(t, ks[i]).size, es) == 1
    ensures Used(Purge(t, ks), es) == Used(t, es) - |ks|
  {
    if ks != [] {
      var k, rest := ks[0], ks[1..];
      RemoveWellPlaced(t, es, total, k);
      assert Has(t, k) && Blocks(EntryOf(t, k).size, es) == 1;
      forall i | 0 <= i < |rest|
        ensures Has(Remove(t, k), rest[i]) && Blocks(EntryOf(Remove(t, k), rest[i]).size, es) == 1
      {
        assert rest[i] == ks[i + 1];
        OtherKeyStays(t, es, total, k, rest[i]);
      }
      PurgeFrees(Remove(t, k), es, total, rest);
    }
  }

  lemma OtherKeyStays(t: seq<Entry>, es: nat, total: nat, k: Key, j: Key)
    requires es >= 1 && WellPlaced(t, es, total) && Has(t, j) && j != k
    ensures Has(Remove(t, k), j) && EntryOf(Remove(t, k), j) == EntryOf(t, j)
  {
    RemoveWellPlaced(t, es, total, k);
    RemoveElements(t, k);
    KeyHasOneEntry(Remove(t, k), EntryOf(t, j));
  }

  /** Evicting victims frees exactly one slot each. */
  lemma EvictionFrees(t: seq<Entry>, es: nat, total: nat, slots: seq<Slot>, picked: seq<nat>)
    requires es >= 1 && WellPlaced(t, es, total) && |slots| == total && Tracks(t, es, slots)
    requires Victims(slots, picked)
    ensures DistinctKeys(KeysAt(slots, picked))
    ensures Used(Purge(t, KeysAt(slots, picked)), es) == Used(t, es) - |picked|
  {
    VictimKeys(t, es, total, slots, picked);
    PurgeFrees(t, es, total, KeysAt(slots, picked));
  }

  /** After an eviction, entries and slots still track each other; the victims' slots are leftovers. */
  lemma EvictionTracks(t: seq<Entry>, es: nat, total: nat, slots: seq<Slot>, picked: seq<nat>)
    requires es >= 1 && WellPlaced(t, es, total) && |slots| == total && Tracks(t, es, slots)
    requires Victims(slots, picked)
    ensures Tracks(Purge(t, KeysAt(slots, picked)), es, Marked(slots, picked))
  {
    var ks := KeysAt(slots, picked);
    var u, r := Purge(t, ks), Marked(slots, picked);
    PurgeSound(t, es, total, ks);
    VictimKeys(t, es, total, slots, picked);
    forall e, q: nat | e in u && q < |r| && Covers(e, es, q)
      ensures Matches(r[q], e, es)
    {
      SurvivorUnmarked(t, es, slots, picked, e, q);
    }
    forall q: nat | q < |r| && !Occupied(u, es, q)
      ensures Vacant(u, r[q])
    {
      VacatedSlot(t, es, total, slots, picked, q);
    }
  }

  lemma SurvivorUnmarked(t: seq<Entry>, es: nat, slots: seq<Slot>, picked: seq<nat>, e: Entry, q: nat)
    requires es >= 1 && Tracks(t, es, slots) && Victims(slots, picked)
    requires e in t && q < |slots| && Covers(e, es, q)
    requires e.key !in KeysAt(slots, picked)
    ensures Marked(slots, picked)[q] == slots[q] && Matches(slots[q], e, es)
  {
    forall i | 0 <= i < |picked|
      ensures picked[i] != q
    {
      var k := KeysAt(slots, picked)[i];
      assert k in KeysAt(slots, picked);
    }
  }

  lemma VacatedSlot(t: seq<Entry>, es: nat, total: nat, slots: seq<Slot>, picked: seq<nat>, q: nat)
    requires es >= 1 && WellPlaced(t, es, total) && |slots| == total && Tracks(t, es, slots)
    requires Victims(slots, picked) && q < |slots|
    requires !Occupied(Purge(t, KeysAt(slots, picked)), es, q)
    ensures Vacant(Purge(t, KeysAt(slots, picked)), Marked(slots, picked)[q])
  {
    var ks := KeysAt(slots, picked);
    var u := Purge(t, ks);
    PurgeSound(t, es, total, ks);
    FewerAt(t, u, ks, slots[q].key);
    if Occupied(t, es, q) {
      VictimSlot(t, es, total, slots, picked, q);
    } else {
      assert Vacant(t, slots[q]);
      assert q !in picked;
    }
  }

  /** A slot that an eviction vacates is a victim's slot, with the victim's key. */
  lemma VictimSlot(t: seq<Entry>, es: nat, total: nat, slots: seq<Slot>, picked: seq<nat>, q: nat)
    requires es >= 1 && WellPlaced(t, es, total) && |slots| == total && Tracks(t, es, slots)
    requires Victims(slots, picked) && q < |slots| && Occupied(t, es, q)
    requires !Occupied(Purge(t, KeysAt(slots, picked)), es, q)
    ensures q in picked && slots[q].key in KeysAt(slots, picked)
  {
    var ks := KeysAt(slots, picked);
    var u := Purge(t, ks);
    var j :| 0 <= j < |t| && t[j].number <= q < End(t[j], es);
    var e := t[j];
    assert e in t && Covers(e, es, q);
    PurgeSound(t, es, total, ks);
    NotOccupiedNotIn(u, es, q, e);
    EntryOfVictim(t, es, total, slots, picked, e, q);
  }

  lemma EntryOfVictim(t: seq<Entry>, es: nat, total: nat, slots: seq<Slot>, picked: seq<nat>, e: Entry, q: nat)
    requires es >= 1 && WellPlaced(t, es, total) && |slots| == total && Tracks(t, es, slots)
    requires Victims(slots, picked) && q < |slots| && e in t && Covers(e, es, q) && e.key in KeysAt(slots, picked)
    ensures q in picked && slots[q].key in KeysAt(slots, picked)
  {
    var ks := KeysAt(slots, picked);
    var i :| 0 <= i < |ks| && ks[i] == e.key;
    VictimKeys(t, es, total, slots, picked);
    KeyHasOneEntry(t, e);
    assert picked[i] == q;
  }

  lemma NotOccupiedNotIn(t: seq<Entry>, es: nat, q: nat, e: Entry)
    requires es >= 1 && !Occupied(t, es, q) && Covers(e, es, q)
    ensures e !in t
  {
  }

  // ----- placement -----

  ghost predicate NoneCarries(slots: seq<Slot>, k: Key) {
    forall q: nat :: q < |slots| ==> slots[q].key != k
  }

  /** Nothing of key k's old block outlives a new block of `n` slots at `p`. */
  ghost predicate CoversOld(t: seq<Entry>, es: nat, k: Key, p: int, n: nat)
    requires es >= 1
  {
    Has(t, k) ==> p <= EntryOf(t, k).number && End(EntryOf(t, k), es) <= p + n
  }

  /** Placing a value keeps the tables in step when no stale slot of its key is left behind. */
  lemma PlacementTracks(t: seq<Entry>, es: nat, total: nat, slots: seq<Slot>, k: Key, size: nat, p: int)
    requires es >= 1 && WellPlaced(t, es, total) && |slots| == total && Tracks(t, es, slots)
    requires size >= 1 && FreeRun(Remove(t, k), es, total, p, Blocks(size, es))
    requires k !in NO_KEYS && CoversOld(t, es, k, p, Blocks(size, es))
    requires forall q: nat :: q < |slots| && !Occupied(t, es, q) && !(p <= q < p + Blocks(size, es)) ==>
               slots[q].key != k
    ensures Tracks(Put(t, k, size, p), es, Added(slots, es, Entry(p, size, k)))
  {
    var e := Entry(p, size, k);
    var u, r := Put(t, k, size, p), Added(slots, es, e);
    forall d, q: nat | d in u && q < |r| && Covers(d, es, q)
      ensures Matches(r[q], d, es)
    {
      StillMatches(t, es, total, slots, k, size, p, d, q);
    }
    forall q: nat | q < |r| && !Occupied(u, es, q)
      ensures Vacant(u, r[q])
    {
      StillVacant(t, es, total, slots, k, size, p, q);
    }
  }

  lemma StillMatches(t: seq<Entry>, es: nat, total: nat, slots: seq<Slot>, k: Key, size: nat, p: int, d: Entry, q: nat)
    requires es >= 1 && WellPlaced(t, es, total) && |slots| == total && Tracks(t, es, slots)
    requires size >= 1 && FreeRun(Remove(t, k), es, total, p, Blocks(size, es))
    requires d in Put(t, k, size, p) && q < |slots| && Covers(d, es, q)
    ensures Matches(Added(slots, es, Entry(p, size, k))[q], d, es)
  {
    var e := Entry(p, size, k);
    InsertElements(Remove(t, k), e);
    if d != e {
      RemoveElements(t, k);
      RemoveWellPlaced(t, es, total, k);
      FreeRunAvoids(Remove(t, k), es, total, p, Blocks(size, es), d);
      OtherMatches(t, es, slots, e, d, q);
    } else {
      NewMatches(slots, es, e, q);
    }
  }

  lemma OtherMatches(t: seq<Entry>, es: nat, slots: seq<Slot>, e: Entry, d: Entry, q: nat)
    requires es >= 1 && Tracks(t, es, slots) && d in t && q < |slots| && Covers(d, es, q) && !Covers(e, es, q)
    ensures Matches(Added(slots, es, e)[q], d, es)
  {
    assert Matches(slots[q], d, es);
  }

  lemma NewMatches(slots: seq<Slot>, es: nat, e: Entry, q: nat)
    requires es >= 1 && q < |slots| && Covers(e, es, q)
    ensures Matches(Added(slots, es, e)[q], e, es)
  {
  }

  lemma StillVacant(t: seq<Entry>, es: nat, total: nat, slots: seq<Slot>, k: Key, size: nat, p: int, q: nat)
    requires es >= 1 && WellPlaced(t, es, total) && |slots| == total && Tracks(t, es, slots)
    requires size >= 1 && CoversOld(t, es, k, p, Blocks(size, es))
    requires forall x: nat :: x < |slots| && !Occupied(t, es, x) && !(p <= x < p + Blocks(size, es)) ==>
               slots[x].key != k
    requires q < |slots| && !Occupied(Put(t, k, size, p), es, q)
    ensures Vacant(Put(t, k, size, p), Added(slots, es, Entry(p, size, k))[q])
  {
    var e := Entry(p, size, k);
    var u := Put(t, k, size, p);
    RemoveElements(t, k);
    InsertElements(Remove(t, k), e);
    NotOccupiedSlot(u, es, q);
    assert !Covers(e, es, q);
    if Occupied(t, es, q) {
      var j :| 0 <= j < |t| && t[j].number <= q < End(t[j], es);
      assert t[j] in t && Covers(t[j], es, q);
      if t[j].key == k {
        KeyHasOneEntry(t, t[j]);
      }
      assert false;
    }
    PutLookup(t, k, size, p, slots[q].key);
  }

  lemma NotOccupiedSlot(t: seq<Entry>, es: nat, q: nat)
    requires es >= 1 && !Occupied(t, es, q)
    ensures forall e :: e in t ==> !Covers(e, es, q)
  {
  }

  /** In a full table no leftover of an eviction is left: a block that takes all the free
      space overwrites every slot marked USED. */
  lemma FullTableClean(t: seq<Entry>, es: nat, total: nat, slots: seq<Slot>)
    requires es >= 1 && WellPlaced(t, es, total) && |slots| == total && Tracks(t, es, slots)
    requires Used(t, es) == total
    ensures NoneUsed(slots)
  {
    forall q: nat | q < |slots|
      ensures slots[q].kind != UsedSlot
    {
      FullTableOccupies(t, es, total, q);
      var j :| 0 <= j < |t| && t[j].number <= q < End(t[j], es);
      assert t[j] in t && Covers(t[j], es, q);
      assert Matches(slots[q], t[j], es);
    }
  }

  lemma AddedKeepsClean(slots: seq<Slot>, es: nat, e: Entry)
    requires es >= 1 && NoneUsed(slots)
    ensures NoneUsed(Added(slots, es, e))
  {
  }

  // ----- deletion -----

  /** The slots that carry a live key are its block, so clearing that many clears them all. */
  lemma {:induction false} BlockKeyCount(t: seq<Entry>, es: nat, total: nat, slots: seq<Slot>, e: Entry, i: nat)
    requires es >= 1 && WellPlaced(t, es, total) && |slots| == total && Tracks(t, es, slots)
    requires e in t && i <= |slots|
    ensures CountKey(slots[..i], e.key)
            == if i <= e.number then 0 else if i <= End(e, es) then i - e.number else Blocks(e.size, es)
  {
    if i > 0 {
      BlockKeyCount(t, es, total, slots, e, i - 1);
      KeyOnlyInBlock(t, es, total, slots, e, i - 1);
      assert slots[..i][..i - 1] == slots[..i - 1];
      assert Inside(e, es, total);
    }
  }

  lemma KeyOnlyInBlock(t: seq<Entry>, es: nat, total: nat, slots: seq<Slot>, e: Entry, q: nat)
    requires es >= 1 && WellPlaced(t, es, total) && |slots| == total && Tracks(t, es, slots)
    requires e in t && q < |slots|
    ensures slots[q].key == e.key <==> Covers(e, es, q)
  {
    KeyHasOneEntry(t, e);
    if Covers(e, es, q) {
      assert Matches(slots[q], e, es);
    } else if Occupied(t, es, q) {
      var j :| 0 <= j < |t| && t[j].number <= q < End(t[j], es);
      assert t[j] in t && Covers(t[j], es, q);
      KeyHasOneEntry(t, t[j]);
    } else {
      assert Vacant(t, slots[q]);
    }
  }

  /** Deleting a key from both tables keeps them in step. */
  lemma DeletionTracks(t: seq<Entry>, es: nat, total: nat, slots: seq<Slot>, k: Key, n: nat)
    requires es >= 1 && WellPlaced(t, es, total) && |slots| == total && Tracks(t, es, slots)
    requires Has(t, k) && n >= Blocks(EntryOf(t, k).size, es) && k !in NO_KEYS
    requires forall e :: e in t ==> e.key !in NO_KEYS
    ensures Tracks(Remove(t, k), es, Cleared(slots, k, n))
    ensures NoneCarries(Cleared(slots, k, n), k)
    ensures forall q: nat :: q < |slots| ==>
              Cleared(slots, k, n)[q] == if Covers(EntryOf(t, k), es, q) then CLEARED else slots[q]
  {
    var e, u, r := EntryOf(t, k), Remove(t, k), Cleared(slots, k, n);
    forall q: nat | q < |slots|
      ensures r[q] == if Covers(e, es, q) then CLEARED else slots[q]
      ensures r[q].key != k
    {
      KeyOnlyInBlock(t, es, total, slots, e, q);
      BlockKeyCount(t, es, total, slots, e, q);
    }
    RemoveElements(t, k);
    forall d, q: nat | d in u && q < |r| && Covers(d, es, q)
      ensures Matches(r[q], d, es)
    {
      KeyOnlyInBlock(t, es, total, slots, e, q);
      assert Matches(slots[q], d, es);
    }
    forall q: nat | q < |r| && !Occupied(u, es, q)
      ensures Vacant(u, r[q])
    {
      DeletedVacant(t, es, total, slots, k, q);
    }
  }

  lemma DeletedVacant(t: seq<Entry>, es: nat, total: nat, slots: seq<Slot>, k: Key, q: nat)
    requires es >= 1 && WellPlaced(t, es, total) && |slots| == total && Tracks(t, es, slots)
    requires Has(t, k) && q < |slots| && !Occupied(Remove(t, k), es, q)
    requires forall e :: e in t ==> e.key !in NO_KEYS
    ensures Vacant(Remove(t, k), if Covers(EntryOf(t, k), es, q) then CLEARED else slots[q])
  {
    var u := Remove(t, k);
    RemoveElements(t, k);
    NotOccupiedSlot(u, es, q);
    if Covers(EntryOf(t, k), es, q) {
      assert Has(u, "NULL") ==> EntryOf(u, "NULL") in u;
    } else {
      if Occupied(t, es, q) {
        var j :| 0 <= j < |t| && t[j].number <= q < End(t[j], es);
        assert t[j] in t && Covers(t[j], es, q);
        KeyHasOneEntry(t, t[j]);
        assert false;
      }
      assert Vacant(t, slots[q]);
      assert Has(u, slots[q].key) ==> EntryOf(u, slots[q].key) in u;
      assert Has(u, slots[q].key) ==> EntryOf(u, slots[q].key) in t;
      if Has(u, slots[q].key) {
        KeyHasOneEntry(t, EntryOf(u, slots[q].key));
        assert false;
      }
    }
  }
}
