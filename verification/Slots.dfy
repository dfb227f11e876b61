/** The per-slot status table that runs parallel to the entry table, and the choice of
    eviction victims made on it. */
module Slots {
  import opened EntryTable
  import opened Storage
  import opened Compaction

  datatype Kind = AtomicSlot | NonAtomicSlot | FreeSlot | UsedSlot

  /** `status_t`. */
  datatype Slot = Slot(kind: Kind, key: Key, lastReferenced: int, spaceUsed: int)

  /** The keys a free slot may carry: as created, and as cleared. */
  const NO_KEYS: set<Key> := {"", "NULL"}
  const CLEARED := Slot(FreeSlot, "NULL", 0, 0)

  predicate IsAtomic(e: Entry, es: nat) {
    e.size <= es
  }

  /** `convert_entry_t_to_status_t`. */
  function SlotOf(e: Entry, es: nat): Slot {
    if IsAtomic(e, es) then Slot(AtomicSlot, e.key, 0, e.size) else Slot(NonAtomicSlot, e.key, 0, -1)
  }

  // ----- what the status operations do -----

  /** `entry_table_status_last_referenced_add_all`. */
  function Aged(slots: seq<Slot>): (r: seq<Slot>)
    ensures |r| == |slots|
  {
    seq(|slots|, q requires 0 <= q < |slots| =>
      if slots[q].kind == FreeSlot then slots[q] else slots[q].(lastReferenced := slots[q].lastReferenced + 1))
  }

  /** `n` slots from `p` on replaced by copies of `s`. */
  function Stamped(slots: seq<Slot>, p: int, n: nat, s: Slot): (r: seq<Slot>)
    ensures |r| == |slots|
  {
    seq(|slots|, q requires 0 <= q < |slots| => if p <= q < p + n then s else slots[q])
  }

  /** `entry_table_status_add_kv`. */
  function Added(slots: seq<Slot>, es: nat, e: Entry): (r: seq<Slot>)
    requires es >= 1
    ensures |r| == |slots|
  {
    Stamped(Aged(slots), e.number, Blocks(e.size, es), SlotOf(e, es))
  }

  function CountKey(slots: seq<Slot>, k: Key): nat {
    if slots == [] then 0
    else CountKey(slots[..|slots| - 1], k) + if slots[|slots| - 1].key == k then 1 else 0
  }

  /** `entry_table_status_delete_kv`: the first `n` slots with the key are cleared. */
  function Cleared(slots: seq<Slot>, k: Key, n: nat): (r: seq<Slot>)
    ensures |r| == |slots|
  {
    seq(|slots|, q requires 0 <= q < |slots| =>
      if slots[q].key == k && CountKey(slots[..q], k) < n then CLEARED else slots[q])
  }

  /** Of the slots that carry a key, `n` are cleared, or all of them if they are fewer. */
  lemma {:induction false} ClearsThatMany(slots: seq<Slot>, k: Key, n: nat)
    requires k != CLEARED.key
    ensures CountKey(Cleared(slots, k, n), k) == if CountKey(slots, k) <= n then 0 else CountKey(slots, k) - n
  {
    if slots != [] {
      var front := slots[..|slots| - 1];
      ClearsThatMany(front, k, n);
      assert forall q :: 0 <= q < |front| ==> slots[..q] == front[..q];
      assert Cleared(slots, k, n)[..|front|] == Cleared(front, k, n);
    }
  }

  /** They are the first ones. */
  lemma ClearsFirst(slots: seq<Slot>, k: Key, n: nat, p: nat, q: nat)
    requires p < q < |slots| && slots[p].key == k && slots[q].key == k && k != CLEARED.key
    ensures Cleared(slots, k, n)[q] == CLEARED ==> Cleared(slots, k, n)[p] == CLEARED
  {
    CountGrows(slots, k, p, q);
  }

  lemma {:induction false} CountGrows(slots: seq<Slot>, k: Key, p: nat, q: nat)
    requires p <= q <= |slots|
    ensures CountKey(slots[..p], k) <= CountKey(slots[..q], k)
  {
    if p < q {
      CountGrows(slots, k, p, q - 1);
      assert slots[..q][..q - 1] == slots[..q - 1];
    }
  }

  // ----- choosing victims -----

  predicate InRange(order: seq<nat>, n: nat) {
    forall i :: 0 <= i < |order| ==> order[i] < n
  }

  /** The atomic slots met along `order`, each once, up to `n` of them. */
  function Picked(slots: seq<Slot>, order: seq<nat>, n: nat): (r: seq<nat>)
    requires InRange(order, |slots|)
    ensures |r| <= n && InRange(r, |slots|)
  {
    if order == [] then []
    else
      var r, x := Picked(slots, order[..|order| - 1], n), order[|order| - 1];
      if |r| < n && slots[x].kind == AtomicSlot && x !in r then r + [x] else r
  }

  /** The slots once the victims are marked USED. */
  function Marked(slots: seq<Slot>, picked: seq<nat>): (r: seq<Slot>)
    ensures |r| == |slots|
  {
    seq(|slots|, q requires 0 <= q < |slots| => if q in picked then slots[q].(kind := UsedSlot) else slots[q])
  }

  function KeysAt(slots: seq<Slot>, picked: seq<nat>): (r: seq<Key>)
    requires InRange(picked, |slots|)
    ensures |r| == |picked|
  {
    seq(|picked|, i requires 0 <= i < |picked| => slots[picked[i]].key)
  }

  lemma MarkedNothing(slots: seq<Slot>)
    ensures Marked(slots, []) == slots && KeysAt(slots, []) == []
  {
  }

  ghost predicate Distinct(s: seq<nat>) {
    forall i, j :: 0 <= i < j < |s| ==> s[i] != s[j]
  }

  lemma {:induction false} PickedAtomic(slots: seq<Slot>, order: seq<nat>, n: nat)
    requires InRange(order, |slots|)
    ensures forall x :: x in Picked(slots, order, n) ==> x in order && x < |slots| && slots[x].kind == AtomicSlot
  {
    if order != [] {
      PickedAtomic(slots, order[..|order| - 1], n);
    }
  }

  lemma {:induction false} PickedDistinct(slots: seq<Slot>, order: seq<nat>, n: nat)
    requires InRange(order, |slots|)
    ensures Distinct(Picked(slots, order, n))
  {
    if order != [] {
      PickedDistinct(slots, order[..|order| - 1], n);
    }
  }

  /** Once `n` victims are found, the rest of the order does not matter. */
  lemma {:induction false} PickedFull(slots: seq<Slot>, order: seq<nat>, n: nat, i: nat)
    requires InRange(order, |slots|)
    requires i <= |order| && |Picked(slots, order[..i], n)| == n
    ensures Picked(slots, order, n) == Picked(slots, order[..i], n)
  {
    if i < |order| {
      assert order[..|order| - 1][..i] == order[..i];
      PickedFull(slots, order[..|order| - 1], n, i);
    } else {
      assert order[..i] == order;
    }
  }

  /** When fewer than `n` are found, every atomic slot of the order has been found. */
  lemma {:induction false} PickedAll(slots: seq<Slot>, order: seq<nat>, n: nat, x: nat)
    requires InRange(order, |slots|)
    requires |Picked(slots, order, n)| < n && x in order && slots[x].kind == AtomicSlot
    ensures x in Picked(slots, order, n)
  {
    var front := order[..|order| - 1];
    if x != order[|order| - 1] {
      assert x in front;
      PickedAll(slots, front, n, x);
    }
  }

  /** Without repetitions in the order, the victims are its first `n` atomic slots. */
  function AtomicsOf(slots: seq<Slot>, order: seq<nat>): seq<nat>
    requires InRange(order, |slots|)
  {
    if order == [] then []
    else
      var r, x := AtomicsOf(slots, order[..|order| - 1]), order[|order| - 1];
      if slots[x].kind == AtomicSlot then r + [x] else r
  }

  lemma {:induction false} PickedIsFirstAtomics(slots: seq<Slot>, order: seq<nat>, n: nat)
    requires InRange(order, |slots|) && Distinct(order)
    ensures Picked(slots, order, n) == FirstOf(AtomicsOf(slots, order), n)
  {
    if order != [] {
      var front, x := order[..|order| - 1], order[|order| - 1];
      PickedIsFirstAtomics(slots, front, n);
      PickedAtomic(slots, front, n);
      assert x !in front;
      FirstOfNext(AtomicsOf(slots, front), x, n);
    }
  }

  function FirstOf(s: seq<nat>, n: nat): seq<nat> {
    if |s| <= n then s else s[..n]
  }

  lemma FirstOfNext(s: seq<nat>, x: nat, n: nat)
    ensures FirstOf(s + [x], n) == if |FirstOf(s, n)| < n then FirstOf(s, n) + [x] else FirstOf(s, n)
  {
  }

  /** The order in which the circular algorithm visits a list: from the pointer on, then the rest. */
  function Rotation(list: seq<nat>, pointer: nat): seq<nat> {
    if pointer >= |list| then list else list[pointer..] + list[..pointer]
  }

  /** How many slots of `run` a scan visits: up to the last of its `n` victims, or all of them. */
  function Visited(slots: seq<Slot>, run: seq<nat>, n: nat): (v: nat)
    requires InRange(run, |slots|)
    ensures v <= |run|
  {
    if run == [] then 0
    else if |Picked(slots, run[..|run| - 1], n)| < n then |run|
    else Visited(slots, run[..|run| - 1], n)
  }

  /** A scan that stops at `k`, right after the last of `n` victims or at the end, has visited `k` slots. */
  lemma {:induction false} VisitedIs(slots: seq<Slot>, run: seq<nat>, k: nat, n: nat)
    requires InRange(run, |slots|) && k <= |run|
    requires k < |run| ==> |Picked(slots, run[..k], n)| == n
    requires k > 0 ==> |Picked(slots, run[..k - 1], n)| < n
    ensures Visited(slots, run, n) == k
  {
    if k < |run| {
      var front := run[..|run| - 1];
      assert front[..k] == run[..k] && (k > 0 ==> front[..k - 1] == run[..k - 1]);
      PickedFull(slots, front, n, k);
      VisitedIs(slots, front, k, n);
    }
  }

  /** Where the scan of a list leaves the circular pointer: it counts from the pointer to the
      end of the list, and not what it visits after that. */
  function HandAfter(slots: seq<Slot>, list: seq<nat>, hand: nat, n: nat): nat
    requires InRange(list, |slots|)
  {
    var start := if hand >= |list| then 0 else hand;
    start + Visited(slots, list[start..], n)
  }

  /** The hand stops right behind the last of the victims found from the pointer on, and at the end
      of the list when they are fewer than are asked for. */
  lemma HandIs(slots: seq<Slot>, list: seq<nat>, hand: nat, n: nat)
    requires InRange(list, |slots|)
    ensures var start := if hand >= |list| then 0 else hand;
            var found, stop := Picked(slots, list[start..], n), HandAfter(slots, list, hand, n);
            && start <= stop <= |list|
            && (|found| < n ==> stop == |list|)
            && (|found| == n > 0 ==> stop > start && list[stop - 1] == found[n - 1])
            && (n == 0 ==> stop == start)
  {
    VisitedLast(slots, list[(if hand >= |list| then 0 else hand)..], n);
  }

  lemma {:induction false} VisitedLast(slots: seq<Slot>, run: seq<nat>, n: nat)
    requires InRange(run, |slots|)
    ensures var found, v := Picked(slots, run, n), Visited(slots, run, n);
            && (|found| < n ==> v == |run|)
            && (|found| == n > 0 ==> v > 0 && run[v - 1] == found[n - 1])
            && (n == 0 ==> v == 0)
  {
    if run != [] {
      VisitedLast(slots, run[..|run| - 1], n);
    }
  }

  /** The guard of the three algorithms: not enough free slots, but enough with the atomic ones. */
  predicate CanEvict(needed: nat, left: nat, atomics: nat) {
    left < needed <= left + atomics
  }

  /** A permutation of the slots in descending order of a weight. */
  ghost predicate Ranking(order: seq<nat>, weight: seq<int>) {
    && |order| == |weight|
    && Distinct(order)
    && InRange(order, |weight|)
    && (forall x: nat :: x < |weight| ==> x in order)
    && (forall i, j :: 0 <= i < j < |order| ==> weight[order[i]] >= weight[order[j]])
  }

  /** Victims chosen along a ranking weigh at least as much as the atomic slots that survive. */
  lemma {:induction false} PickedHeaviest(slots: seq<Slot>, order: seq<nat>, weight: seq<int>, n: nat, x: nat, y: nat)
    requires |weight| == |slots| && InRange(order, |slots|)
    requires forall i, j :: 0 <= i < j < |order| ==> weight[order[i]] >= weight[order[j]]
    requires x in Picked(slots, order, n)
    requires y in order && slots[y].kind == AtomicSlot && y !in Picked(slots, order, n)
    ensures weight[x] >= weight[y]
  {
    var front, z := order[..|order| - 1], order[|order| - 1];
    if x in Picked(slots, front, n) {
      PickedAtomic(slots, front, n);
      if y in front {
        PickedHeaviest(slots, front, weight, n, x, y);
      } else {
        var i :| 0 <= i < |front| && front[i] == x;
        assert weight[order[i]] >= weight[order[|order| - 1]];
      }
    } else {
      assert y in front;
      PickedAll(slots, front, n, y);
      assert false;
    }
  }

  // ----- agreement between the two tables -----

  predicate Covers(e: Entry, es: nat, q: int)
    requires es >= 1
  {
    e.number <= q < End(e, es)
  }

  /** A slot of entry e: its key, its kind, its size; the age is free. */
  predicate Matches(s: Slot, e: Entry, es: nat) {
    s == SlotOf(e, es).(lastReferenced := s.lastReferenced)
  }

  /** A slot no entry covers: free, or still marked USED by an eviction. */
  predicate Vacant(t: seq<Entry>, s: Slot) {
    && (s.kind == FreeSlot || s.kind == UsedSlot)
    && (s.kind == FreeSlot ==> s.key in NO_KEYS && s.spaceUsed == 0)
    && !Has(t, s.key)
  }

  /** The status table tracks the entry table, with leftovers of evictions allowed. */
  ghost predicate Tracks(t: seq<Entry>, es: nat, slots: seq<Slot>)
    requires es >= 1
  {
    && (forall e, q: nat :: e in t && q < |slots| && Covers(e, es, q) ==> Matches(slots[q], e, es))
    && (forall q: nat :: q < |slots| && !Occupied(t, es, q) ==> Vacant(t, slots[q]))
  }

  ghost predicate NoneUsed(slots: seq<Slot>) {
    forall q: nat :: q < |slots| ==> slots[q].kind != UsedSlot
  }

  /** The status table agrees with the entry table: every slot of an entry carries its
      key, kind and size, and every other slot is free. */
  ghost predicate Agrees(t: seq<Entry>, es: nat, slots: seq<Slot>)
    requires es >= 1
  {
    Tracks(t, es, slots) && NoneUsed(slots)
  }
}
