/** A live value that has to grow when the free slots and the atomic values are too few for all of
    it, under CIRC and LRU: nothing is evicted, the answer is COMPACT or none, and the retry, on a
    packed table without the old value, is the call that evicts. */
module Regrowth {
  import opened EntryTable
  import opened Storage
  import opened Compaction
  import opened Slots
  import opened Agreement
  import opened Policies
  import opened SetRuns
  import opened SetSpecs
  import opened InstanceRuns
  import opened Rewrites

  // ----- the first call -----

  /** No call places a value that takes more slots than are free, its own included. */
  lemma NoRoom(a: Arena, k: Key, v: Value)
    requires a.Valid() && |v| >= 1 && DiffEntries(a.table, a.es, k, |v|) > a.Left()
    ensures Attempt(a, k, v).0 != StatusOk
  {
    var t, n := a.table, Blocks(|v|, a.es);
    UsedAtMostTotal(t, a.es, a.total);
    if Has(t, k) && |v| <= EntryOf(t, k).size {
      BlocksMonotone(|v|, EntryOf(t, k).size, a.es);
    }
    if FirstFit(t, a.es, a.total, n) >= 0 {
      FreeRunAtMostLeft(t, a.es, a.total, FirstFit(t, a.es, a.total, n), n);
    }
  }

  lemma NothingPicked(policy: Policy, s: State, x: Call)
    requires Agreeing(s) && x.SetCall? && x.given == [] && CallStep(policy, s, x) && Evicts(s, x.key, x.value)
    requires Blocks(|x.value|, s.arena.es) > s.arena.Left() + AtomicCount(s.arena.table, s.arena.es)
    ensures x.replaced == [] && x.picked == [] && EmptiedSlots(s, x) == s.slots && Emptied(s, x) == s.arena
    ensures x.st != StatusOk && CallFits(s, x)
    ensures x.st != StatusNoSpace ==>
              DiffEntries(s.arena.table, s.arena.es, x.key, |x.value|)
              <= s.arena.Left() + AtomicCount(s.arena.table, s.arena.es)
  {
    hide Attempt;
    hide SlotsAfter;
    hide PointerMoves;
    MarkedNothing(s.slots);
    PurgeNone(s.arena.table);
    NoRoom(s.arena, x.key, x.value);
  }

  // ----- the retry -----

  lemma RetryClean(policy: Policy, s: State, y: Call)
    requires Agreeing(s) && y.SetCall? && y.given == [] && CallStep(policy, s, y) && y.key !in NO_KEYS
    requires !Has(s.arena.table, y.key) && (policy == Circular || policy == LeastRecentlyUsed)
    ensures y.st in {StatusOk, StatusNoSpace, StatusCompact}
    ensures y.st != StatusCompact ==> Agreeing(y.after)
    ensures y.st != StatusNoSpace && Evicts(s, y.key, y.value) ==> y.picked != []
  {
    hide SetSpec;
    CallValue(policy, s, y);
    SetAgrees(policy, s, y.key, y.value, y.st, y.after, y.replaced, y.picked, y.order);
    NoneReplaced(policy, s, y.key, y.value, y.st, y.after, y.replaced, y.picked, y.order);
  }

  lemma EvictingRetry(policy: Policy, s: State, y: Call)
    requires Agreeing(s) && y.SetCall? && y.given == [] && CallStep(policy, s, y) && y.key !in NO_KEYS
    requires !Has(s.arena.table, y.key) && (policy == Circular || policy == LeastRecentlyUsed)
    requires Evicts(s, y.key, y.value)
    ensures CallFits(s, y) <==> y.st != StatusCompact
  {
    hide CallStep;
    hide Emptied;
    hide Attempt;
    hide SlotsAfter;
    hide StaysPut;
    hide UsedWithin;
    hide Tracks;
    hide NoneUsed;
    hide Marked;
    CallAgreesIff(policy, s, y);
    RetryClean(policy, s, y);
    CallIsAttempt(policy, s, y);
    if y.st == StatusCompact {
      SomeMarked(s.slots, y.picked);
    }
  }

  lemma SomeMarked(slots: seq<Slot>, picked: seq<nat>)
    requires picked != [] && InRange(picked, |slots|)
    ensures !NoneUsed(Marked(slots, picked))
  {
    assert Marked(slots, picked)[picked[0]].kind == UsedSlot;
  }

  /** Distinct numbers of a range, as many as the range is long, are all of it. */
  lemma WholeRange(s: seq<nat>, lo: int, hi: int, x: nat)
    requires Distinct(s) && lo <= x < hi && |s| == hi - lo && forall y :: y in s ==> lo <= y < hi
    ensures x in s
  {
    if x !in s {
      DistinctInRange(s + [x], lo, hi);
    }
  }

  /** After an exact eviction from a packed table, a key that is in neither table finds a run if and
      only if the victims are the last entries: as many slots as the value takes, at the end. */
  lemma TailRun(b: Arena, a: Arena, slots: seq<Slot>, picked: seq<nat>, k: Key, v: Value)
    requires b.Valid() && a.Valid() && a == Compacted(b) && 1 <= a.Left() < Blocks(|v|, a.es) && |v| >= 1
    requires InStep(a, slots) && Victims(slots, picked) && |picked| == Blocks(|v|, a.es) - a.Left()
    requires var e := Evicted(a, KeysAt(slots, picked));
             !Has(e.table, k) && e.Left() == Blocks(|v|, a.es)
    ensures Attempt(Evicted(a, KeysAt(slots, picked)), k, v).0 == StatusOk
            <==> forall q :: q in picked ==> q >= a.total - Blocks(|v|, a.es)
  {
    hide Attempt;
    hide Tracks;
    hide WellPlaced;
    var e, n := Evicted(a, KeysAt(slots, picked)), Blocks(|v|, a.es);
    RunDecides(e, k, v);
    if FirstFit(e.table, a.es, a.total, n) >= 0 {
      RunAtEnd(b, a, slots, picked, k, v, FirstFit(e.table, a.es, a.total, n));
    }
    if forall q :: q in picked ==> q >= a.total - n {
      EndIsFree(b, a, slots, picked, n);
      assert FreeRun(e.table, a.es, a.total, a.total - n, n);
    }
  }

  lemma RunDecides(e: Arena, k: Key, v: Value)
    requires e.Valid() && |v| >= 1 && !Has(e.table, k) && Blocks(|v|, e.es) <= e.Left()
    ensures Attempt(e, k, v).0 == StatusOk <==> FirstFit(e.table, e.es, e.total, Blocks(|v|, e.es)) >= 0
  {
    UsedAtMostTotal(e.table, e.es, e.total);
    AbsentKeyAgrees(e.table, e.es, e.total, k, |v|);
  }

  /** Behind the packed entries every slot is free, the last one too. */
  lemma RunAtEnd(b: Arena, a: Arena, slots: seq<Slot>, picked: seq<nat>, k: Key, v: Value, p: int)
    requires b.Valid() && a.Valid() && a == Compacted(b) && 1 <= a.Left() && |v| >= 1
    requires InStep(a, slots) && Victims(slots, picked)
    requires var e := Evicted(a, KeysAt(slots, picked));
             !Has(e.table, k) && e.Left() == Blocks(|v|, a.es)
             && FreeRun(e.table, a.es, a.total, p, Blocks(|v|, a.es))
    ensures forall q :: q in picked ==> q >= a.total - Blocks(|v|, a.es)
  {
    hide Tracks;
    hide WellPlaced;
    hide Used;
    hide Blocks;
    var e := Evicted(a, KeysAt(slots, picked));
    CompactionSound(b);
    PurgeSound(a.table, a.es, a.total, KeysAt(slots, picked));
    LastIsFree(b, a);
    NotInFewer(a.table, e.table, a.es, a.total - 1);
    FullBlock(e, k, v, p, a.total - 1);
    hide Evicted;
    hide Purge;
    hide Occupied;
    forall q | q in picked
      ensures q >= a.total - Blocks(|v|, a.es)
    {
      VictimFree(a, slots, picked, q);
      FullBlock(e, k, v, p, q);
    }
  }

  /** The slot of a victim is free once the victims are out. */
  lemma VictimFree(a: Arena, slots: seq<Slot>, picked: seq<nat>, q: nat)
    requires InStep(a, slots) && Victims(slots, picked) && q in picked
    ensures q < a.total && !Occupied(Evicted(a, KeysAt(slots, picked)).table, a.es, q)
  {
    var i :| 0 <= i < |picked| && picked[i] == q;
    EvictionTracks(a.table, a.es, a.total, slots, picked);
    MarkedNotOccupied(Purge(a.table, KeysAt(slots, picked)), a.es, Marked(slots, picked), q);
  }

  lemma LastIsFree(b: Arena, a: Arena)
    requires b.Valid() && a == Compacted(b) && a.Valid() && 1 <= a.Left()
    ensures a.total >= 1 && !Occupied(a.table, a.es, a.total - 1)
  {
    CompactionSound(b);
    FreeSlotsLast(b.table, a.es, a.total, a.total - 1);
  }

  lemma NotInFewer(t: seq<Entry>, u: seq<Entry>, es: nat, q: int)
    requires es >= 1 && !Occupied(t, es, q) && forall e :: e in u ==> e in t
    ensures !Occupied(u, es, q)
  {
    forall j | 0 <= j < |u|
      ensures !(u[j].number <= q < End(u[j], es))
    {
      assert u[j] in t;
      var i :| 0 <= i < |t| && t[i] == u[j];
    }
  }

  /** When the victims are the last entries, their slots and the free ones form one run. */
  lemma EndIsFree(b: Arena, a: Arena, slots: seq<Slot>, picked: seq<nat>, n: nat)
    requires b.Valid() && a.Valid() && a == Compacted(b) && 1 <= a.Left() < n <= a.total
    requires InStep(a, slots) && Victims(slots, picked) && |picked| == n - a.Left()
    requires forall q :: q in picked ==> q >= a.total - n
    ensures forall q :: a.total - n <= q < a.total ==>
              !Occupied(Evicted(a, KeysAt(slots, picked)).table, a.es, q)
  {
    var e, used := Evicted(a, KeysAt(slots, picked)), Used(a.table, a.es);
    CompactionSound(b);
    PurgeSound(a.table, a.es, a.total, KeysAt(slots, picked));
    forall q | q in picked
      ensures a.total - n <= q < used
    {
      var i :| 0 <= i < |picked| && picked[i] == q;
      AtomicBefore(b, a, slots, q);
    }
    forall q | a.total - n <= q < a.total
      ensures !Occupied(e.table, a.es, q)
    {
      if q < used {
        WholeRange(picked, a.total - n, used, q);
        VictimFree(a, slots, picked, q);
      } else {
        FreeSlotsLast(b.table, a.es, a.total, q);
        NotInFewer(a.table, e.table, a.es, q);
      }
    }
  }

  lemma AtomicBefore(b: Arena, a: Arena, slots: seq<Slot>, q: nat)
    requires b.Valid() && a.Valid() && a == Compacted(b) && InStep(a, slots)
    requires q < |slots| && slots[q].kind == AtomicSlot
    ensures q < Used(a.table, a.es)
  {
    CompactionSound(b);
    FreeSlotsLast(b.table, a.es, a.total, q);
    assert !Occupied(a.table, a.es, q) ==> Vacant(a.table, slots[q]);
  }

  /** The retry asks for a compaction once more exactly when a victim is not among the last entries. */
  lemma RetryPlacesIff(policy: Policy, b: Arena, s: State, y: Call)
    requires b.Valid() && s.arena == Compacted(b) && s.arena.Left() >= 1
    requires Agreeing(s) && y.SetCall? && y.given == [] && CallStep(policy, s, y) && y.key !in NO_KEYS
    requires !Has(s.arena.table, y.key) && (policy == Circular || policy == LeastRecentlyUsed)
    requires Evicts(s, y.key, y.value)
    ensures y.st != StatusCompact
            <==> forall q :: q in y.picked ==> q >= s.arena.total - Blocks(|y.value|, s.arena.es)
  {
    hide CallStep;
    hide Attempt;
    hide Tracks;
    CallValue(policy, s, y);
    RefusedIff(policy, s, y);
    if y.st != StatusNoSpace {
      EvictionIsExact(policy, s, y);
      CallIsAttempt(policy, s, y);
      StillAbsent(policy, s, y);
      TailRun(b, s.arena, s.slots, y.picked, y.key, y.value);
    }
  }

  lemma RefusedIff(policy: Policy, s: State, y: Call)
    requires Agreeing(s) && y.SetCall? && y.given == [] && CallStep(policy, s, y) && y.key !in NO_KEYS
    requires !Has(s.arena.table, y.key) && (policy == Circular || policy == LeastRecentlyUsed)
    requires Evicts(s, y.key, y.value)
    ensures y.st == StatusNoSpace ==> y.picked == []
    ensures y.st != StatusNoSpace ==> EvictsExactly(policy, s, y) && y.st in {StatusOk, StatusCompact}
  {
    hide CallStep;
    hide Attempt;
    hide SlotsAfter;
    hide AtomicCount;
    hide Tracks;
    CallValue(policy, s, y);
    RefusedOrNot(policy, s, y);
    OnlyTwo(Evicted(s.arena, y.replaced), s.slots, y.key, y.value);
    RetryClean(policy, s, y);
  }

  /** A refusal picks nothing; without one the free slots and the atomic values are enough. */
  lemma RefusedOrNot(policy: Policy, s: State, y: Call)
    requires y.SetCall? && CallStep(policy, s, y) && !Has(s.arena.table, y.key) && Evicts(s, y.key, y.value)
    ensures y.picked == [] || y.st == Attempt(Evicted(s.arena, y.replaced), y.key, y.value).0
    ensures y.st != StatusNoSpace ==>
              Blocks(|y.value|, s.arena.es) <= s.arena.Left() + AtomicCount(s.arena.table, s.arena.es)
  {
    hide Attempt;
    hide SlotsAfter;
    hide PointerMoves;
    hide Chosen;
    hide AtomicCount;
    hide Used;
    OnlyTwo(Evicted(s.arena, y.replaced), s.slots, y.key, y.value);
  }

  lemma StillAbsent(policy: Policy, s: State, y: Call)
    requires Agreeing(s) && y.SetCall? && y.given == [] && CallStep(policy, s, y) && EvictsExactly(policy, s, y)
    requires !Has(s.arena.table, y.key)
    ensures !Has(Emptied(s, y).table, y.key)
    ensures Emptied(s, y) == Evicted(s.arena, KeysAt(s.slots, y.picked))
  {
    hide CallStep;
    CallIsAttempt(policy, s, y);
    PurgeSound(s.arena.table, s.arena.es, s.arena.total, KeysAt(s.slots, y.picked));
    FewerAt(s.arena.table, Purge(s.arena.table, KeysAt(s.slots, y.picked)), KeysAt(s.slots, y.picked), y.key);
  }

  // ----- the request -----

  /** The tables agree at the end of the request if and only if the victims of its last call, which
      is the one that evicts, are the last entries; and that is when it does not end in COMPACT. */
  lemma TooFewAgreesIff(policy: Policy, s: State, xs: seq<Call>)
    requires Agreeing(s) && OneRequest(xs) && CallRun(policy, s, xs) && xs[0].SetCall? && xs[0].key !in NO_KEYS
    requires |xs[0].value| >= 1 && Evicts(s, xs[0].key, xs[0].value)
    requires Blocks(|xs[0].value|, s.arena.es) > s.arena.Left() + AtomicCount(s.arena.table, s.arena.es)
    requires policy == Circular || policy == LeastRecentlyUsed
    ensures var last := xs[|xs| - 1];
            && last.SetCall?
            && (Agreeing(Final(s, xs))
                <==> forall q :: q in last.picked ==> q >= s.arena.total - Blocks(|xs[0].value|, s.arena.es))
            && (Agreeing(Final(s, xs)) <==> last.st != StatusCompact)
  {
    hide CallRun;
    hide CallStep;
    hide CallFits;
    hide InStep;
    hide EmptiedSlots;
    hide Compacted;
    hide Emptied;
    hide CompactedSlots;
    RequestAgreesIff(policy, s, xs);
    if |xs| == 1 {
      FirstCall(policy, s, xs);
      NothingPicked(policy, s, xs[0]);
    } else {
      ThreeCalls(policy, s, xs);
      NothingPicked(policy, s, xs[0]);
      AskedToCompact(policy, s, xs[0]);
      LastOfThree(policy, s, xs);
      EvictsAgain(s, xs[0], xs[1].after, xs[2]);
      EvictingRetry(policy, xs[1].after, xs[2]);
      RetryPlacesIff(policy, xs[0].after.arena, xs[1].after, xs[2]);
    }
  }

  /** Without the old value there are more free slots, but still too few. */
  lemma EvictsAgain(s: State, x: Call, s2: State, y: Call)
    requires s.arena.Valid() && s2.arena.Valid() && x.SetCall? && y.SetCall? && y.key == x.key && y.value == x.value
    requires Emptied(s, x) == s.arena && s2.arena.es == s.arena.es && !Has(s2.arena.table, y.key)
    requires s2.arena.Left() == s.arena.Left() + Held(s.arena, x.key)
    requires Evicts(s, x.key, x.value)
    requires DiffEntries(s.arena.table, s.arena.es, x.key, |x.value|)
          <= s.arena.Left() + AtomicCount(s.arena.table, s.arena.es)
    requires Blocks(|x.value|, s.arena.es) > s.arena.Left() + AtomicCount(s.arena.table, s.arena.es)
    ensures Evicts(s2, y.key, y.value) && s2.arena.Left() >= 1
  {
    hide ReqEntries;
    hide Blocks;
    hide Used;
    UsedAtMostTotal(s.arena.table, s.arena.es, s.arena.total);
  }
}
