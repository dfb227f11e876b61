/** What the status table is worth: compaction keeps it in step, it is exact after a
    rewrite only when no old slot is left behind, its ages say which key was SET last,
    and the victims chosen on it are the ones each policy promises. */
module Policies {
  import opened EntryTable
  import opened Storage
  import opened Compaction
  import opened Slots
  import opened Agreement

  ghost predicate OrdinaryKeys(t: seq<Entry>) {
    forall e :: e in t ==> e.key !in NO_KEYS
  }

  // ----- compaction -----

  /** The status table when the first `i` entries have been deleted and added again. */
  function CompactedSlots(t: seq<Entry>, es: nat, slots: seq<Slot>, i: nat): (r: seq<Slot>)
    requires es >= 1 && i <= |t|
    ensures |r| == |slots|
  {
    if i == 0 then slots
    else
      var e := t[i - 1];
      var prev := Cleared(CompactedSlots(t, es, slots, i - 1), e.key, Blocks(e.size, es));
      Added(prev, es, e.(number := Used(t[..i - 1], es)))
  }

  /** Moving one entry keeps the tables in step, leaves no new leftover and brings in no other key. */
  lemma MoveTracks(t: seq<Entry>, es: nat, total: nat, slots: seq<Slot>, i: nat)
    requires es >= 1 && WellPlaced(t, es, total) && |slots| == total && i < |t|
    requires Tracks(Stage(t, es, i), es, slots) && OrdinaryKeys(t)
    ensures var next := Added(Cleared(slots, t[i].key, Blocks(t[i].size, es)), es, t[i].(number := Used(t[..i], es)));
            && Tracks(Stage(t, es, i + 1), es, next)
            && (NoneUsed(slots) ==> NoneUsed(next))
            && (forall k :: k != t[i].key && k !in NO_KEYS && NoneCarries(slots, k) ==> NoneCarries(next, k))
  {
    var e, p, n := t[i], Used(t[..i], es), Blocks(t[i].size, es);
    assert e in t;
    StageWellPlaced(t, es, total, i);
    StageEntry(t, es, total, i);
    StageKeys(t, es, i);
    ReplaceAll(slots, es, n, e.(number := p));
    DeletionTracks(Stage(t, es, i), es, total, slots, e.key, n);
    StageStep(t, es, total, i);
    StageFirstFit(t, es, total, i);
    ReplaceTracks(Stage(t, es, i), es, total, Cleared(slots, e.key, n), e.key, e.size, p);
  }

  lemma StageEntry(t: seq<Entry>, es: nat, total: nat, i: nat)
    requires es >= 1 && WellPlaced(t, es, total) && i < |t|
    ensures Has(Stage(t, es, i), t[i].key) && EntryOf(Stage(t, es, i), t[i].key) == t[i]
  {
    StageWellPlaced(t, es, total, i);
    StageAt(t, es, i, i);
    IndexOfUnique(Stage(t, es, i), i);
  }

  /** Placing a key that has just been deleted from both tables. */
  lemma ReplaceTracks(s: seq<Entry>, es: nat, total: nat, slots: seq<Slot>, k: Key, size: nat, p: int)
    requires es >= 1 && WellPlaced(s, es, total) && |slots| == total && k !in NO_KEYS && size >= 1
    requires Tracks(Remove(s, k), es, slots) && NoneCarries(slots, k)
    requires FreeRun(Remove(s, k), es, total, p, Blocks(size, es))
    ensures Tracks(Put(s, k, size, p), es, Added(slots, es, Entry(p, size, k)))
  {
    var w := Remove(s, k);
    RemoveWellPlaced(s, es, total, k);
    RemoveElements(s, k);
    assert Remove(w, k) == w;
    PlacementTracks(w, es, total, slots, k, size, p);
  }

  lemma ReplaceAll(slots: seq<Slot>, es: nat, n: nat, e: Entry)
    requires es >= 1
    ensures var next := Added(Cleared(slots, e.key, n), es, e);
            && (NoneUsed(slots) ==> NoneUsed(next))
            && (forall k :: k != e.key && k !in NO_KEYS && NoneCarries(slots, k) ==> NoneCarries(next, k))
  {
  }

  lemma StageKeys(t: seq<Entry>, es: nat, i: nat)
    requires es >= 1 && i <= |t| && OrdinaryKeys(t)
    ensures OrdinaryKeys(Stage(t, es, i))
  {
    forall j | 0 <= j < |t|
      ensures Stage(t, es, i)[j].key == t[j].key && t[j] in t
    {
      StageAt(t, es, i, j);
    }
  }

  /** Compaction keeps the status table in step with the entry table. */
  lemma {:induction false} CompactionTracks(t: seq<Entry>, es: nat, total: nat, slots: seq<Slot>, i: nat)
    requires es >= 1 && WellPlaced(t, es, total) && |slots| == total && i <= |t|
    requires Tracks(t, es, slots) && OrdinaryKeys(t)
    ensures Tracks(Stage(t, es, i), es, CompactedSlots(t, es, slots, i))
    ensures NoneUsed(slots) ==> NoneUsed(CompactedSlots(t, es, slots, i))
    ensures forall k :: !Has(t, k) && k !in NO_KEYS && NoneCarries(slots, k) ==>
              NoneCarries(CompactedSlots(t, es, slots, i), k)
  {
    if i == 0 {
      assert Stage(t, es, 0) == t;
    } else {
      CompactionTracks(t, es, total, slots, i - 1);
      MoveTracks(t, es, total, CompactedSlots(t, es, slots, i - 1), i - 1);
    }
  }

  /** Of the slots that an eviction left marked, one move takes those of the entry's new block. */
  lemma MoveUsed(t: seq<Entry>, es: nat, total: nat, slots: seq<Slot>, i: nat, q: nat)
    requires es >= 1 && WellPlaced(t, es, total) && |slots| == total && i < |t| && q < |slots|
    requires Tracks(Stage(t, es, i), es, slots) && OrdinaryKeys(t)
    ensures var next := Added(Cleared(slots, t[i].key, Blocks(t[i].size, es)), es, t[i].(number := Used(t[..i], es)));
            next[q].kind == UsedSlot
            <==> slots[q].kind == UsedSlot && !(Used(t[..i], es) <= q < Used(t[..i], es) + Blocks(t[i].size, es))
  {
    var e, n := t[i], Blocks(t[i].size, es);
    assert e in t;
    StageWellPlaced(t, es, total, i);
    StageEntry(t, es, total, i);
    StageKeys(t, es, i);
    DeletionTracks(Stage(t, es, i), es, total, slots, e.key, n);
    if Covers(e, es, q) {
      assert Matches(slots[q], e, es);
    }
  }

  /** The compaction overwrites the marked slots before the packed end, and no others. */
  lemma {:induction false} CompactionUsed(t: seq<Entry>, es: nat, total: nat, slots: seq<Slot>, i: nat, q: nat)
    requires es >= 1 && WellPlaced(t, es, total) && |slots| == total && i <= |t| && q < |slots|
    requires Tracks(t, es, slots) && OrdinaryKeys(t)
    ensures CompactedSlots(t, es, slots, i)[q].kind == UsedSlot
            <==> slots[q].kind == UsedSlot && Used(t[..i], es) <= q
  {
    hide Cleared;
    hide Added;
    hide Tracks;
    hide WellPlaced;
    if i > 0 {
      CompactionUsed(t, es, total, slots, i - 1, q);
      CompactionTracks(t, es, total, slots, i - 1);
      MoveUsed(t, es, total, CompactedSlots(t, es, slots, i - 1), i - 1, q);
      assert t[..i][..i - 1] == t[..i - 1];
    }
  }

  /** A compaction forgets which key was SET last: the age of a slot afterwards is the number of
      entries that come after its own, wherever the SETs were. */
  lemma {:induction false} CompactionAges(t: seq<Entry>, es: nat, slots: seq<Slot>, i: nat, j: nat, q: nat)
    requires es >= 1 && UniqueKeys(t) && j < i <= |t| && q < |slots|
    requires Used(t[..j], es) <= q < Used(t[..j], es) + Blocks(t[j].size, es)
    ensures var s := CompactedSlots(t, es, slots, i)[q];
            s.key == t[j].key && s.kind != FreeSlot && s.lastReferenced == i - 1 - j
  {
    hide Used;
    hide Cleared;
    if j < i - 1 {
      CompactionAges(t, es, slots, i - 1, j, q);
      UsedGrows(t, es, j + 1, i - 1);
      UsedNext(t, es, j);
      KeyStays(CompactedSlots(t, es, slots, i - 1), t[i - 1].key, Blocks(t[i - 1].size, es), q);
    }
  }

  lemma UsedNext(t: seq<Entry>, es: nat, j: nat)
    requires es >= 1 && j < |t|
    ensures Used(t[..j + 1], es) == Used(t[..j], es) + Blocks(t[j].size, es)
  {
    assert t[..j + 1][..j] == t[..j];
  }

  lemma KeyStays(slots: seq<Slot>, k: Key, n: nat, q: nat)
    requires q < |slots| && slots[q].key != k
    ensures Cleared(slots, k, n)[q] == slots[q]
  {
  }

  // ----- what a placement leaves -----

  /** Every slot that an eviction left marked lies in the block of `n` slots from `p` on. */
  ghost predicate UsedWithin(slots: seq<Slot>, p: int, n: nat) {
    forall q: nat :: q < |slots| && slots[q].kind == UsedSlot ==> p <= q < p + n
  }

  /** Placing a value makes the status table exact if and only if the new block covers the old
      one and every slot that an eviction left marked. */
  lemma PlacementAgreesIff(t: seq<Entry>, es: nat, total: nat, slots: seq<Slot>, k: Key, size: nat, p: int)
    requires es >= 1 && WellPlaced(t, es, total) && |slots| == total && Tracks(t, es, slots)
    requires size >= 1 && FreeRun(Remove(t, k), es, total, p, Blocks(size, es)) && k !in NO_KEYS
    ensures Agrees(Put(t, k, size, p), es, Added(slots, es, Entry(p, size, k)))
            <==> CoversOld(t, es, k, p, Blocks(size, es)) && UsedWithin(slots, p, Blocks(size, es))
  {
    var n, r := Blocks(size, es), Added(slots, es, Entry(p, size, k));
    if !UsedWithin(slots, p, n) {
      var q: nat :| q < |slots| && slots[q].kind == UsedSlot && !(p <= q < p + n);
      assert r[q].kind == UsedSlot;
    } else if CoversOld(t, es, k, p, n) {
      forall q: nat | q < |slots| && !Occupied(t, es, q) && !(p <= q < p + n)
        ensures slots[q].key != k
      {
        assert Vacant(t, slots[q]);
      }
      PlacementTracks(t, es, total, slots, k, size, p);
    } else {
      var e := EntryOf(t, k);
      StaleSlot(t, es, total, slots, k, size, p, if e.number < p then e.number else End(e, es) - 1);
    }
  }

  /** A value of two slots rewritten with one: the second slot stays marked. */
  lemma ShrinkLeavesStale()
    ensures var t, s := [Entry(0, 2, "k")], Slot(NonAtomicSlot, "k", 0, -1);
            && WellPlaced(t, 1, 2) && Agrees(t, 1, [s, s]) && Spot(t, 1, 2, "k", 1) == 0
            && !Agrees(Put(t, "k", 1, 0), 1, Added([s, s], 1, Entry(0, 1, "k")))
  {
    var t, s := [Entry(0, 2, "k")], Slot(NonAtomicSlot, "k", 0, -1);
    FewUnitSlots();
    hide Blocks;
    assert t[0].key == "k" && Has(t, "k") && EntryOf(t, "k") == t[0];
    forall q: nat | q < 2
      ensures Occupied(t, 1, q)
    {
      assert t[0].number <= q < End(t[0], 1);
    }
    SpotIsFree(t, 1, 2, "k", 1);
    PlacementAgreesIff(t, 1, 2, [s, s], "k", 1, 0);
  }

  lemma StaysAgrees(t: seq<Entry>, es: nat, total: nat, slots: seq<Slot>, k: Key, size: nat)
    requires es >= 1 && WellPlaced(t, es, total) && |slots| == total && Agrees(t, es, slots)
    requires OrdinaryKeys(t) && Has(t, k) && size >= 1 && Blocks(size, es) >= Blocks(EntryOf(t, k).size, es)
    requires FreeRun(Remove(t, k), es, total, EntryOf(t, k).number, Blocks(size, es))
    ensures Agrees(Put(t, k, size, EntryOf(t, k).number), es, Added(slots, es, Entry(EntryOf(t, k).number, size, k)))
  {
    assert EntryOf(t, k).key !in NO_KEYS;
    PlacementAgreesIff(t, es, total, slots, k, size, EntryOf(t, k).number);
  }

  /** A slot of the old block outside the new one keeps the old kind though nothing is there. */
  lemma StaleSlot(t: seq<Entry>, es: nat, total: nat, slots: seq<Slot>, k: Key, size: nat, p: int, q: int)
    requires es >= 1 && WellPlaced(t, es, total) && |slots| == total && Tracks(t, es, slots)
    requires Has(t, k) && Covers(EntryOf(t, k), es, q) && !(p <= q < p + Blocks(size, es))
    ensures !Agrees(Put(t, k, size, p), es, Added(slots, es, Entry(p, size, k)))
  {
    var e, u := EntryOf(t, k), Put(t, k, size, p);
    EntrySlots(t, es, total, slots, e, q);
    OwnBlockFree(t, es, total, k, q);
    InsertLeavesFree(Remove(t, k), es, Entry(p, size, k), q);
    assert !Vacant(u, Added(slots, es, Entry(p, size, k))[q]);
  }

  lemma InsertLeavesFree(s: seq<Entry>, es: nat, e: Entry, q: nat)
    requires es >= 1 && !Occupied(s, es, q) && !Covers(e, es, q)
    ensures !Occupied(InsertSorted(s, e), es, q)
  {
    var u := InsertSorted(s, e);
    InsertElements(s, e);
    NotOccupiedSlot(s, es, q);
    assert forall j :: 0 <= j < |u| ==> u[j] in u;
  }

  // ----- LRU: ages -----

  /** The index of the last SET of a key in a history of SETs, -1 when there is none. */
  function LastSet(hist: seq<Key>, k: Key): int {
    if hist == [] then -1
    else if hist[|hist| - 1] == k then |hist| - 1
    else LastSet(hist[..|hist| - 1], k)
  }

  /** Each live slot's age is the number of SETs made since the last SET of its key. */
  ghost predicate AgesCount(t: seq<Entry>, es: nat, slots: seq<Slot>, hist: seq<Key>)
    requires es >= 1
  {
    forall e, q: nat :: e in t && q < |slots| && Covers(e, es, q) ==>
      LastSet(hist, e.key) >= 0 && slots[q].lastReferenced == |hist| - 1 - LastSet(hist, e.key)
  }

  lemma SetKeepsAges(t: seq<Entry>, es: nat, total: nat, slots: seq<Slot>, hist: seq<Key>, k: Key, size: nat, p: int)
    requires es >= 1 && WellPlaced(t, es, total) && |slots| == total && Tracks(t, es, slots)
    requires size >= 1 && FreeRun(Remove(t, k), es, total, p, Blocks(size, es))
    requires AgesCount(t, es, slots, hist)
    ensures AgesCount(Put(t, k, size, p), es, Added(slots, es, Entry(p, size, k)), hist + [k])
  {
    var h := hist + [k];
    var u, r := Put(t, k, size, p), Added(slots, es, Entry(p, size, k));
    forall d, q: nat | d in u && q < |r| && Covers(d, es, q)
      ensures LastSet(h, d.key) >= 0 && r[q].lastReferenced == |h| - 1 - LastSet(h, d.key)
    {
      AddedSlot(t, es, total, slots, k, size, p, d, q);
      LastSetGrows(hist, k, d.key);
    }
  }

  lemma LastSetGrows(hist: seq<Key>, k: Key, j: Key)
    ensures LastSet(hist + [k], j) == if j == k then |hist| else LastSet(hist, j)
  {
    assert (hist + [k])[..|hist|] == hist;
  }

  /** A slot of the table after a placement: fresh in the new block, one SET older elsewhere. */
  lemma AddedSlot(t: seq<Entry>, es: nat, total: nat, slots: seq<Slot>, k: Key, size: nat, p: int, d: Entry, q: nat)
    requires es >= 1 && WellPlaced(t, es, total) && |slots| == total && Tracks(t, es, slots)
    requires size >= 1 && FreeRun(Remove(t, k), es, total, p, Blocks(size, es))
    requires d in Put(t, k, size, p) && q < |slots| && Covers(d, es, q)
    ensures d.key == k ==> Added(slots, es, Entry(p, size, k))[q].lastReferenced == 0
    ensures d.key != k ==> d in t
    ensures d.key != k ==>
              Added(slots, es, Entry(p, size, k))[q].lastReferenced == slots[q].lastReferenced + 1
  {
    RemoveElements(t, k);
    InsertElements(Remove(t, k), Entry(p, size, k));
    if d.key != k {
      RemoveWellPlaced(t, es, total, k);
      FreeRunAvoids(Remove(t, k), es, total, p, Blocks(size, es), d);
      OtherSlotAges(t, es, slots, Entry(p, size, k), d, q);
    }
  }

  /** A slot outside the new block, of an entry of the table, gets one SET older. */
  lemma OtherSlotAges(t: seq<Entry>, es: nat, slots: seq<Slot>, e: Entry, d: Entry, q: nat)
    requires es >= 1 && Tracks(t, es, slots) && d in t && q < |slots| && Covers(d, es, q) && !Covers(e, es, q)
    ensures Added(slots, es, e)[q].lastReferenced == slots[q].lastReferenced + 1
  {
    assert Matches(slots[q], d, es);
  }

  lemma EvictionKeepsAges(t: seq<Entry>, es: nat, total: nat, slots: seq<Slot>, hist: seq<Key>, picked: seq<nat>)
    requires es >= 1 && WellPlaced(t, es, total) && Victims(slots, picked)
    requires AgesCount(t, es, slots, hist)
    ensures AgesCount(Purge(t, KeysAt(slots, picked)), es, Marked(slots, picked), hist)
  {
    PurgeSound(t, es, total, KeysAt(slots, picked));
  }

  function Ages(slots: seq<Slot>): (r: seq<int>)
    ensures |r| == |slots|
  {
    seq(|slots|, q requires 0 <= q < |slots| => slots[q].lastReferenced)
  }

  function Sizes(slots: seq<Slot>): (r: seq<int>)
    ensures |r| == |slots|
  {
    seq(|slots|, q requires 0 <= q < |slots| => slots[q].spaceUsed)
  }

  /** LRU victims are exactly the least recently SET atomic keys: every one was last SET
      before every atomic key that survives. */
  lemma LruEvictsLeastRecent(t: seq<Entry>, es: nat, total: nat, slots: seq<Slot>, hist: seq<Key>,
                             order: seq<nat>, n: nat, x: nat, y: nat)
    requires es >= 1 && WellPlaced(t, es, total) && |slots| == total && Tracks(t, es, slots)
    requires AgesCount(t, es, slots, hist) && Ranking(order, Ages(slots))
    requires x in Picked(slots, order, n)
    requires y < |slots| && slots[y].kind == AtomicSlot && y !in Picked(slots, order, n)
    ensures LastSet(hist, slots[x].key) < LastSet(hist, slots[y].key)
  {
    PickedHeaviest(slots, order, Ages(slots), n, x, y);
    PickedAtomic(slots, order, n);
    OlderSlotOlderKey(t, es, total, slots, hist, x, y);
  }

  lemma OlderSlotOlderKey(t: seq<Entry>, es: nat, total: nat, slots: seq<Slot>, hist: seq<Key>, x: nat, y: nat)
    requires es >= 1 && WellPlaced(t, es, total) && |slots| == total && Tracks(t, es, slots)
    requires AgesCount(t, es, slots, hist) && x != y && x < |slots| && y < |slots|
    requires slots[x].kind == AtomicSlot && slots[y].kind == AtomicSlot
    requires slots[x].lastReferenced >= slots[y].lastReferenced
    ensures LastSet(hist, slots[x].key) < LastSet(hist, slots[y].key)
  {
    var d := AtomicSlotOwner(t, es, total, slots, x);
    var e := AtomicSlotOwner(t, es, total, slots, y);
    LastSetAt(hist, d.key);
    LastSetAt(hist, e.key);
    KeyHasOneEntry(t, d);
    KeyHasOneEntry(t, e);
    assert d.key != e.key;
  }

  lemma {:induction false} LastSetAt(hist: seq<Key>, k: Key)
    ensures LastSet(hist, k) >= 0 ==> LastSet(hist, k) < |hist| && hist[LastSet(hist, k)] == k
  {
    if hist != [] && hist[|hist| - 1] != k {
      LastSetAt(hist[..|hist| - 1], k);
    }
  }

  // ----- the circular order -----

  function AllSlots(n: nat): (r: seq<nat>)
    ensures |r| == n
  {
    seq(n, i => i)
  }

  /** Whatever the pointer, the circular order visits every slot exactly once. */
  lemma CircularVisitsAll(n: nat, pointer: nat)
    ensures Distinct(Rotation(AllSlots(n), pointer)) && InRange(Rotation(AllSlots(n), pointer), n)
    ensures forall x: nat :: x < n ==> x in Rotation(AllSlots(n), pointer)
    ensures forall i :: 0 <= i < n ==>
              Rotation(AllSlots(n), pointer)[i] == if pointer >= n then i
                                                   else if pointer + i < n then pointer + i
                                                   else pointer + i - n
  {
    var r := Rotation(AllSlots(n), pointer);
    forall x: nat | x < n
      ensures x in r
    {
      assert r[if pointer >= n then x else if x >= pointer then x - pointer else x + n - pointer] == x;
    }
  }

  /** What any eviction that finds `n` = needed - free victims does, needed being the slots
      of an absent key: exactly the needed space is free afterwards, and the tables are in step. */
  lemma ExactEviction(t: seq<Entry>, es: nat, total: nat, slots: seq<Slot>, picked: seq<nat>, needed: nat)
    requires es >= 1 && WellPlaced(t, es, total) && |slots| == total && Agrees(t, es, slots)
    requires Victims(slots, picked) && |picked| == needed - (total - Used(t, es))
    ensures var u := Purge(t, KeysAt(slots, picked));
            && WellPlaced(u, es, total)
            && total - Used(u, es) == needed
            && Tracks(u, es, Marked(slots, picked))
  {
    PurgeSound(t, es, total, KeysAt(slots, picked));
    EvictionFrees(t, es, total, slots, picked);
    EvictionTracks(t, es, total, slots, picked);
  }
}
