/** What `instance_set` answers, in terms of slots: when it refuses, when it asks for a compaction,
    and where it places a value. */
module Answers {
  import opened EntryTable
  import opened Storage
  import opened Compaction
  import opened Slots
  import opened Agreement
  import opened Policies
  import opened SetRuns
  import opened SetSpecs
  import opened InstanceRuns

  /** The entries that take one slot. */
  function OneSlotted(t: seq<Entry>, es: nat): set<int>
    requires es >= 1
  {
    set i | 0 <= i < |t| && Blocks(t[i].size, es) == 1
  }

  /** The atomic entries are the ones that take one slot. */
  lemma {:induction false} AtomicCountIs(t: seq<Entry>, es: nat)
    requires es >= 1 && forall i :: 0 <= i < |t| ==> t[i].size >= 1
    ensures AtomicCount(t, es) == |OneSlotted(t, es)|
  {
    if t == [] {
      assert OneSlotted(t, es) == {};
    } else {
      AtomicCountIs(t[..|t| - 1], es);
      LastSlotted(t, es);
    }
  }

  lemma LastSlotted(t: seq<Entry>, es: nat)
    requires es >= 1 && t != [] && t[|t| - 1].size >= 1
    ensures |OneSlotted(t, es)| == |OneSlotted(t[..|t| - 1], es)| + if IsAtomic(t[|t| - 1], es) then 1 else 0
  {
    hide Blocks;
    var front, n := t[..|t| - 1], |t| - 1;
    OneSlot(t[n].size, es);
    if IsAtomic(t[n], es) {
      assert OneSlotted(t, es) == OneSlotted(front, es) + {n};
    } else {
      assert OneSlotted(t, es) == OneSlotted(front, es);
    }
  }

  lemma OneSlot(size: nat, es: nat)
    requires es >= 1 && size >= 1
    ensures Blocks(size, es) == 1 <==> size <= es
  {
    BlocksBounds(size, es);
    if size > es {
      BlocksMonotone(es + 1, size, es);
    }
  }

  /** The key has an entry, and the value stays at it: it is no longer than the old one, or the
      slots that it needs more are free, as far as there are slots. */
  ghost predicate StaysInPlace(a: Arena, k: Key, size: nat)
    requires a.es >= 1
  {
    Has(a.table, k) &&
    var e := EntryOf(a.table, k);
    || size <= e.size
    || (&& Blocks(size, a.es) - Blocks(e.size, a.es) <= a.Left()
        && forall q :: End(e, a.es) <= q < e.number + Blocks(size, a.es) ==> !Occupied(a.table, a.es, q))
  }

  /** The key is neither the only one of the table nor the last one, and without it there is no
      free run that is long enough. */
  ghost predicate Fragmented(a: Arena, k: Key, n: nat)
    requires a.es >= 1
  {
    && (exists e :: e in a.table && e.key != k)
    && (a.table != [] ==> a.table[|a.table| - 1].key != k)
    && forall p :: !FreeRun(Remove(a.table, k), a.es, a.total, p, n)
  }

  lemma FragmentedIs(a: Arena, k: Key, size: nat)
    requires a.Valid() && size >= 1
    ensures Contiguous(a.table, a.es, a.total, k, size) <==> !Fragmented(a, k, Blocks(size, a.es))
  {
    var t, r, n := a.table, Remove(a.table, k), Blocks(size, a.es);
    RemoveElements(t, k);
    if t != [] {
      assert t[|t| - 1].key == k <==> IndexOf(t, k) == |t| - 1 by {
        if t[|t| - 1].key == k {
          IndexOfUnique(t, |t| - 1);
        }
      }
    }
    if r != [] {
      assert r[0] in r;
    }
    RunExists(r, a.es, a.total, n);
  }

  lemma RunExists(t: seq<Entry>, es: nat, total: nat, n: nat)
    requires es >= 1
    ensures FirstFit(t, es, total, n) >= 0 <==> exists p :: FreeRun(t, es, total, p, n)
    ensures FirstFit(t, es, total, n) < 0 ==> FirstFit(t, es, total, n) == -1
  {
    var p := FirstFit(t, es, total, n);
    if exists q :: FreeRun(t, es, total, q, n) {
      var q :| FreeRun(t, es, total, q, n);
    }
  }

  /** A compaction is asked for exactly when the arena is fragmented for the key; otherwise the value
      is placed exactly when it stays in place and the arena does not end before it, or does not
      stay and there is a free run for it. */
  ghost predicate StatusFits(a: Arena, k: Key, size: nat, st: Status)
    requires a.es >= 1
  {
    var n := Blocks(size, a.es);
    && st in {StatusOk, StatusCompact, StatusError}
    && (st == StatusCompact <==> Fragmented(a, k, n))
    && (st == StatusOk <==>
          && !Fragmented(a, k, n)
          && if StaysInPlace(a, k, size) then EntryOf(a.table, k).number + n <= a.total
             else exists p :: FreeRun(a.table, a.es, a.total, p, n))
  }

  lemma AttemptIs(a: Arena, k: Key, v: Value)
    requires a.Valid() && |v| >= 1
    ensures StatusFits(a, k, |v|, Attempt(a, k, v).0)
  {
    FragmentedIs(a, k, |v|);
    SpotIs(a, k, |v|);
    RunExists(a.table, a.es, a.total, Blocks(|v|, a.es));
    var p := Spot(a.table, a.es, a.total, k, |v|);
    assert !StaysInPlace(a, k, |v|) && p >= 0 ==> FreeRun(a.table, a.es, a.total, p, Blocks(|v|, a.es));
  }

  lemma SpotIs(a: Arena, k: Key, size: nat)
    requires a.Valid() && size >= 1
    ensures StaysInPlace(a, k, size) ==> Spot(a.table, a.es, a.total, k, size) == EntryOf(a.table, k).number >= 0
    ensures !StaysInPlace(a, k, size) ==>
              Spot(a.table, a.es, a.total, k, size) == FirstFit(a.table, a.es, a.total, Blocks(size, a.es))
  {
    var t := a.table;
    if Has(t, k) {
      assert Inside(EntryOf(t, k), a.es, a.total);
    }
  }

  /** The tables of an attempt: a success puts the entry in place, or at the first free run, and
      leaves the other entries; a compaction drops the key; else nothing changes. */
  lemma AttemptPlaces(a: Arena, k: Key, v: Value)
    requires a.Valid() && |v| >= 1
    ensures var (st, b) := Attempt(a, k, v);
            && b.total == a.total && b.es == a.es
            && (forall e: Entry :: e.key != k ==> (e in b.table <==> e in a.table))
            && (st == StatusCompact ==> !Has(b.table, k) && b.bytes == a.bytes)
            && (st == StatusError ==> b == a)
            && (st == StatusOk ==>
                  Has(b.table, k) &&
                  var e, n := EntryOf(b.table, k), Blocks(|v|, a.es);
                  && e.size == |v|
                  && if StaysInPlace(a, k, |v|) then e.number == EntryOf(a.table, k).number
                     else FreeRun(a.table, a.es, a.total, e.number, n)
                          && forall q :: 0 <= q < e.number ==> !FreeRun(a.table, a.es, a.total, q, n))
  {
    var p := Spot(a.table, a.es, a.total, k, |v|);
    SpotIs(a, k, |v|);
    RemoveElements(a.table, k);
    InsertElements(Remove(a.table, k), Entry(p, |v|, k));
    PutLookup(a.table, k, |v|, p, k);
  }

  /** The slots that a value needs more than its key has. */
  function Lacking(a: Arena, k: Key, size: nat): int
    requires a.es >= 1
  {
    Blocks(size, a.es) - if Has(a.table, k) then Blocks(EntryOf(a.table, k).size, a.es) else 0
  }

  /** What a call of `instance_set` answers: NO_SPACE exactly when the slots it lacks are more than
      the free ones and the entries of one slot; otherwise what becomes of the value in the arena,
      without the replaced keys if slots are lacking; but for CIRC, which fails without a victim. */
  ghost predicate Replies(policy: Policy, before: State, x: Call)
    requires before.arena.Valid() && x.SetCall?
  {
    var a, size := before.arena, |x.value|;
    var lacking, room := Lacking(a, x.key, size), a.Left() + |OneSlotted(a.table, a.es)|;
    && (x.st == StatusNoSpace <==> lacking > room)
    && (x.st == StatusNoSpace ==> x.after == before && x.replaced == x.given)
    && (lacking <= a.Left() ==>
          StatusFits(a, x.key, size, x.st) && x.replaced == x.given && x.after.pointer == before.pointer)
    && (a.Left() < lacking <= room ==>
          if policy == Circular && x.picked == [] && Blocks(size, a.es) <= room then
            x.st == StatusError && x.after.arena == a && x.after.slots == before.slots
          else StatusFits(Evicted(a, x.replaced), x.key, size, x.st))
  }

  lemma CallAnswers(policy: Policy, before: State, x: Call)
    requires x.SetCall? && CallStep(policy, before, x)
    ensures Replies(policy, before, x)
  {
    hide SetSpec;
    hide Attempt;
    hide StatusFits;
    hide OneSlotted;
    hide AtomicCount;
    hide Blocks;
    var a := before.arena;
    TableSizes(a);
    AtomicCountIs(a.table, a.es);
    UsedAtMostTotal(a.table, a.es, a.total);
    AttemptIs(a, x.key, x.value);
    AttemptIs(Evicted(a, x.replaced), x.key, x.value);
    StatusComesOf(policy, before, x.key, x.value, x.given, x.st, x.after, x.replaced, x.picked, x.order);
  }

  /** The status of a call, from `SetSpec`. */
  lemma StatusComesOf(policy: Policy, before: State, k: Key, v: Value, given: seq<Key>, st: Status, after: State,
                      replaced: seq<Key>, picked: seq<nat>, order: seq<nat>)
    requires before.arena.Valid() && |v| >= 1
    requires SetSpec(policy, before, k, v, given, st, after, replaced, picked, order)
    ensures var a, lacking := before.arena, Lacking(before.arena, k, |v|);
            var room := a.Left() + AtomicCount(a.table, a.es);
            && 0 <= a.Left()
            && (lacking > room ==> st == StatusNoSpace && after == before && replaced == given)
            && (lacking <= a.Left() ==>
                  st == Attempt(a, k, v).0 && replaced == given && after.pointer == before.pointer)
            && (a.Left() < lacking <= room ==>
                  if policy == Circular && picked == [] && Blocks(|v|, a.es) <= room then
                    st == StatusError && after.arena == a && after.slots == before.slots
                  else st == Attempt(Evicted(a, replaced), k, v).0)
  {
    hide Attempt;
    hide SlotsAfter;
    hide Chosen;
    hide PointerMoves;
    hide AtomicCount;
    hide Blocks;
    hide Evicted;
    hide Used;
    UsedAtMostTotal(before.arena.table, before.arena.es, before.arena.total);
  }

  lemma TableSizes(a: Arena)
    requires a.Valid()
    ensures forall i :: 0 <= i < |a.table| ==> a.table[i].size >= 1
  {
    forall i | 0 <= i < |a.table|
      ensures a.table[i].size >= 1
    {
      assert a.table[i] in a.table && Inside(a.table[i], a.es, a.total);
    }
  }
}
