/** Which SET requests end with agreeing tables, whatever the size of the value and whatever is
    evicted on the way: the exact condition, for one call and for a whole request. */
module Rewrites {
  import opened EntryTable
  import opened Storage
  import opened Compaction
  import opened Slots
  import opened Agreement
  import opened Policies
  import opened SetRuns
  import opened Biggest
  import opened SetSpecs
  import opened InstanceRuns

  // ----- one call -----

  /** The arena in which a call places its value: without the keys that it drops. */
  ghost function Emptied(s: State, x: Call): (a: Arena)
    requires s.arena.Valid() && x.SetCall?
    ensures a.Valid() && a.es == s.arena.es && a.total == s.arena.total
  {
    Evicted(s.arena, Dropped(s, x))
  }

  /** The status table at that point. */
  function EmptiedSlots(s: State, x: Call): seq<Slot>
    requires s.arena.es >= 1 && x.SetCall?
  {
    if Evicts(s, x.key, x.value) then Marked(s.slots, x.picked) else s.slots
  }

  /** The keys replaced before the call are out of the table. */
  ghost predicate GivenGone(s: State, x: Call)
    requires x.SetCall?
  {
    forall g :: g in x.given ==> !Has(s.arena.table, g)
  }

  lemma {:induction false} PurgeGiven(t: seq<Entry>, given: seq<Key>, ks: seq<Key>)
    requires forall g :: g in given ==> !Has(t, g)
    ensures Purge(t, given + ks) == Purge(t, ks)
  {
    if given == [] {
      assert given + ks == ks;
    } else {
      assert (given + ks)[0] == given[0] && (given + ks)[1..] == given[1..] + ks;
      PurgeGiven(t, given[1..], ks);
    }
  }

  /** What a call comes to: one attempt on the emptied tables, or nothing at all. */
  lemma CallIsAttempt(policy: Policy, s: State, x: Call)
    requires x.SetCall? && CallStep(policy, s, x) && GivenGone(s, x)
    ensures Emptied(s, x).table == if Evicts(s, x.key, x.value) then Purge(s.arena.table, KeysAt(s.slots, x.picked))
                                   else s.arena.table
    ensures Evicts(s, x.key, x.value) ==> Victims(s.slots, x.picked)
    ensures || (x.st in {StatusNoSpace, StatusError} && x.after.arena == Emptied(s, x)
                && x.after.slots == EmptiedSlots(s, x))
            || ((x.st, x.after.arena) == Attempt(Emptied(s, x), x.key, x.value)
                && x.after.slots == SlotsAfter(Emptied(s, x), EmptiedSlots(s, x), x.key, x.value))
  {
    hide Attempt;
    hide SlotsAfter;
    hide Chosen;
    hide PointerMoves;
    hide Purge;
    hide Marked;
    hide Victims;
    hide KeysAt;
    MarkedNothing(s.slots);
    PurgeNone(s.arena.table);
    if Evicts(s, x.key, x.value) {
      ChosenIfAny(policy, s, x);
      PurgeGiven(s.arena.table, x.given, KeysAt(s.slots, x.picked));
      assert x.replaced == x.given + KeysAt(s.slots, x.picked) by {
        assert x.given + [] == x.given;
      }
    }
  }

  lemma PurgeNone(t: seq<Entry>)
    ensures Purge(t, []) == t
  {
  }

  lemma ChosenIfAny(policy: Policy, s: State, x: Call)
    requires x.SetCall? && CallStep(policy, s, x) && Evicts(s, x.key, x.value)
    ensures Victims(s.slots, x.picked)
  {
    hide Attempt;
    hide SlotsAfter;
    hide Chosen;
    hide PointerMoves;
    if x.picked != [] {
      ChosenVictims(policy, s.slots, s.pointer, Blocks(|x.value|, s.arena.es), s.arena.Left(),
                    AtomicCount(s.arena.table, s.arena.es), x.picked, x.order);
    }
  }

  lemma EmptiedInStep(policy: Policy, s: State, x: Call)
    requires InStep(s.arena, s.slots) && x.SetCall? && CallStep(policy, s, x) && GivenGone(s, x)
    ensures InStep(Emptied(s, x), EmptiedSlots(s, x))
  {
    hide CallStep;
    CallIsAttempt(policy, s, x);
    var a := s.arena;
    if Evicts(s, x.key, x.value) {
      EvictionTracks(a.table, a.es, a.total, s.slots, x.picked);
      PurgeSound(a.table, a.es, a.total, KeysAt(s.slots, x.picked));
    }
  }

  /** A value that stays where it is and takes no fewer slots. */
  ghost predicate StaysPut(t: seq<Entry>, es: nat, total: nat, k: Key, size: nat)
    requires es >= 1
  {
    Has(t, k) ==>
      Spot(t, es, total, k, size) == EntryOf(t, k).number && Blocks(size, es) >= Blocks(EntryOf(t, k).size, es)
  }

  /** The condition for one call: a value that is placed stays put, and its block takes every slot
      that the eviction left marked; without a placement, no slot is left marked. */
  ghost predicate CallFits(s: State, x: Call)
    requires s.arena.Valid() && x.SetCall?
  {
    var a, slots, n := Emptied(s, x), EmptiedSlots(s, x), Blocks(|x.value|, s.arena.es);
    if x.st == StatusOk then
      && StaysPut(a.table, a.es, a.total, x.key, |x.value|)
      && UsedWithin(slots, Spot(a.table, a.es, a.total, x.key, |x.value|), n)
    else NoneUsed(slots)
  }

  lemma StaysPutIff(a: Arena, k: Key, v: Value)
    requires a.Valid() && |v| >= 1 && Attempt(a, k, v).0 == StatusOk
    ensures var p := Spot(a.table, a.es, a.total, k, |v|);
            FreeRun(Remove(a.table, k), a.es, a.total, p, Blocks(|v|, a.es))
            && (CoversOld(a.table, a.es, k, p, Blocks(|v|, a.es)) <==> StaysPut(a.table, a.es, a.total, k, |v|))
  {
    var t, n, p := a.table, Blocks(|v|, a.es), Spot(a.table, a.es, a.total, k, |v|);
    SpotIsFree(t, a.es, a.total, k, |v|);
    if Has(t, k) && p != EntryOf(t, k).number {
      FreeRunAvoids(t, a.es, a.total, p, n, EntryOf(t, k));
      assert Inside(EntryOf(t, k), a.es, a.total);
    }
  }

  lemma PlacedAgreesIff(a: Arena, slots: seq<Slot>, k: Key, v: Value)
    requires InStep(a, slots) && |v| >= 1 && k !in NO_KEYS && Attempt(a, k, v).0 == StatusOk
    ensures Attempt(a, k, v).1.Valid()
    ensures InStep(Attempt(a, k, v).1, SlotsAfter(a, slots, k, v)) && NoneUsed(SlotsAfter(a, slots, k, v))
            <==> StaysPut(a.table, a.es, a.total, k, |v|)
                 && UsedWithin(slots, Spot(a.table, a.es, a.total, k, |v|), Blocks(|v|, a.es))
  {
    StaysPutIff(a, k, v);
    AttemptSound(a, k, v);
    PutKeepsOrdinary(a.table, k, |v|, Spot(a.table, a.es, a.total, k, |v|));
    PlacementAgreesIff(a.table, a.es, a.total, slots, k, |v|, Spot(a.table, a.es, a.total, k, |v|));
  }

  /** A live key that is answered COMPACT is about to grow: a smaller value always fits in its old block. */
  lemma CompactGrows(a: Arena, k: Key, v: Value)
    requires a.Valid() && |v| >= 1 && Has(a.table, k) && Attempt(a, k, v).0 == StatusCompact
    ensures Blocks(|v|, a.es) > Blocks(EntryOf(a.table, k).size, a.es)
  {
    var e, n := EntryOf(a.table, k), Blocks(|v|, a.es);
    if n <= Blocks(e.size, a.es) {
      assert Inside(e, a.es, a.total);
      forall q | e.number <= q < e.number + n
        ensures !Occupied(Remove(a.table, k), a.es, q)
      {
        OwnBlockFree(a.table, a.es, a.total, k, q);
      }
      assert FreeRun(Remove(a.table, k), a.es, a.total, e.number, n);
    }
  }

  /** An answer of COMPACT leaves the tables in step, with the same slots marked, without the key. */
  lemma CompactInStep(a: Arena, slots: seq<Slot>, k: Key, v: Value)
    requires InStep(a, slots) && |v| >= 1 && k !in NO_KEYS && Attempt(a, k, v).0 == StatusCompact
    ensures InStep(Attempt(a, k, v).1, SlotsAfter(a, slots, k, v)) && !Has(Attempt(a, k, v).1.table, k)
    ensures |SlotsAfter(a, slots, k, v)| == |slots|
    ensures forall q: nat :: q < |slots| ==>
              (SlotsAfter(a, slots, k, v)[q].kind == UsedSlot <==> slots[q].kind == UsedSlot)
    ensures Has(a.table, k) ==> NoneCarries(SlotsAfter(a, slots, k, v), k)
  {
    hide Attempt;
    hide SlotsAfter;
    hide Cleared;
    hide Tracks;
    hide Blocks;
    hide WellPlaced;
    hide Used;
    CompactOutcome(a, slots, k, v);
    RemoveWellPlaced(a.table, a.es, a.total, k);
    RemovedOrdinary(a, k);
    if Has(a.table, k) {
      CompactGrows(a, k, v);
      OutInStep(a, slots, k, Blocks(|v|, a.es));
    }
  }

  lemma CompactOutcome(a: Arena, slots: seq<Slot>, k: Key, v: Value)
    requires a.Valid() && |v| >= 1 && Attempt(a, k, v).0 == StatusCompact
    ensures Attempt(a, k, v).1 == a.(table := Remove(a.table, k))
    ensures SlotsAfter(a, slots, k, v) == if Has(a.table, k) then Cleared(slots, k, Blocks(|v|, a.es)) else slots
  {
    hide Contiguous;
    hide Spot;
  }

  lemma RemovedOrdinary(a: Arena, k: Key)
    requires a.Valid() && OrdinaryKeys(a.table)
    ensures OrdinaryKeys(Remove(a.table, k)) && !Has(Remove(a.table, k), k)
    ensures !Has(a.table, k) ==> Remove(a.table, k) == a.table
  {
    RemoveElements(a.table, k);
  }

  /** A key that leaves both tables. */
  lemma OutInStep(a: Arena, slots: seq<Slot>, k: Key, n: nat)
    requires InStep(a, slots) && k !in NO_KEYS && Has(a.table, k) && n >= Blocks(EntryOf(a.table, k).size, a.es)
    ensures Tracks(Remove(a.table, k), a.es, Cleared(slots, k, n)) && NoneCarries(Cleared(slots, k, n), k)
    ensures forall q: nat :: q < |slots| ==>
              (Cleared(slots, k, n)[q].kind == UsedSlot <==> slots[q].kind == UsedSlot)
  {
    DeletionTracks(a.table, a.es, a.total, slots, k, n);
    hide Cleared;
    forall q: nat | q < |slots| && Covers(EntryOf(a.table, k), a.es, q)
      ensures slots[q].kind != UsedSlot
    {
      assert Matches(slots[q], EntryOf(a.table, k), a.es);
    }
  }

  /** One call, from tables in step: they agree afterwards if and only if the condition holds; a
      call that places nothing leaves them in step. */
  lemma CallAgreesIff(policy: Policy, s: State, x: Call)
    requires InStep(s.arena, s.slots) && x.SetCall? && CallStep(policy, s, x) && GivenGone(s, x)
    requires x.key !in NO_KEYS
    ensures Agreeing(x.after) <==> CallFits(s, x)
    ensures x.st != StatusOk ==> InStep(x.after.arena, x.after.slots)
  {
    hide CallStep;
    hide Attempt;
    hide SlotsAfter;
    hide Emptied;
    hide EmptiedSlots;
    hide StaysPut;
    hide UsedWithin;
    hide Tracks;
    hide NoneUsed;
    var a, slots := Emptied(s, x), EmptiedSlots(s, x);
    EmptiedInStep(policy, s, x);
    CallIsAttempt(policy, s, x);
    CallValue(policy, s, x);
    if x.st == StatusOk {
      PlacedAgreesIff(a, slots, x.key, x.value);
    } else if x.st == StatusCompact {
      CompactInStep(a, slots, x.key, x.value);
      SameMarked(x.after.slots, slots);
    } else {
      OnlyTwo(a, slots, x.key, x.value);
    }
  }

  lemma SameMarked(a: seq<Slot>, b: seq<Slot>)
    requires |a| == |b| && forall q: nat :: q < |b| ==> (a[q].kind == UsedSlot <==> b[q].kind == UsedSlot)
    ensures NoneUsed(a) <==> NoneUsed(b)
  {
  }

  /** An attempt that neither places the value nor asks for a compaction changes nothing. */
  lemma OnlyTwo(a: Arena, slots: seq<Slot>, k: Key, v: Value)
    requires a.Valid() && |v| >= 1
    ensures Attempt(a, k, v).0 !in {StatusOk, StatusCompact} ==>
              Attempt(a, k, v) == (StatusError, a) && SlotsAfter(a, slots, k, v) == slots
  {
    hide Contiguous;
    hide Spot;
  }

  // ----- one request -----

  /** The slots that a key holds. */
  function Held(a: Arena, k: Key): nat
    requires a.es >= 1
  {
    if Has(a.table, k) then Blocks(EntryOf(a.table, k).size, a.es) else 0
  }

  /** A compaction keeps the tables in step, and the marked slots behind the packed entries. */
  lemma CompactionInStep(policy: Policy, s: State, x: Call)
    requires InStep(s.arena, s.slots) && x.CompactCall? && CallStep(policy, s, x)
    ensures InStep(x.after.arena, x.after.slots)
    ensures x.after.arena.es == s.arena.es && x.after.arena.total == s.arena.total
    ensures x.after.arena.Left() == s.arena.Left()
    ensures forall q: nat :: q < |x.after.slots| ==>
              (x.after.slots[q].kind == UsedSlot
               <==> s.slots[q].kind == UsedSlot && Used(s.arena.table, s.arena.es) <= q)
    ensures forall k :: Has(x.after.arena.table, k) <==> Has(s.arena.table, k)
  {
    var a := s.arena;
    CompactionSound(a);
    CompactionTracks(a.table, a.es, a.total, s.slots, |a.table|);
    StageKeys(a.table, a.es, |a.table|);
    forall k
      ensures Has(x.after.arena.table, k) <==> Has(a.table, k)
    {
      PackedLookup(a.table, a.es, k);
    }
    assert a.table[..|a.table|] == a.table;
    forall q: nat | q < |x.after.slots|
      ensures x.after.slots[q].kind == UsedSlot <==> s.slots[q].kind == UsedSlot && Used(a.table, a.es) <= q
    {
      CompactionUsed(a.table, a.es, a.total, s.slots, |a.table|, q);
    }
  }

  /** What a first call that answers COMPACT leaves. */
  lemma AskedToCompact(policy: Policy, s: State, x: Call)
    requires Agreeing(s) && x.SetCall? && x.given == [] && CallStep(policy, s, x) && x.key !in NO_KEYS
    requires x.st == StatusCompact
    ensures InStep(x.after.arena, x.after.slots) && !Has(x.after.arena.table, x.key)
    ensures x.after.arena.es == s.arena.es && x.after.arena.total == s.arena.total
    ensures x.after.arena.Left() == Emptied(s, x).Left() + Held(Emptied(s, x), x.key)
    ensures forall q: nat :: q < |s.slots| ==>
              (x.after.slots[q].kind == UsedSlot <==> EmptiedSlots(s, x)[q].kind == UsedSlot)
    ensures forall g :: g in x.replaced ==> !Has(x.after.arena.table, g)
  {
    hide CallStep;
    hide Emptied;
    hide EmptiedSlots;
    hide SlotsAfter;
    hide Attempt;
    var a, slots := Emptied(s, x), EmptiedSlots(s, x);
    CallIsAttempt(policy, s, x);
    EmptiedInStep(policy, s, x);
    CallValue(policy, s, x);
    CompactInStep(a, slots, x.key, x.value);
    TakenOut(a, x.key, x.value);
    ReplacedGone(policy, s, x);
  }

  lemma CallValue(policy: Policy, s: State, x: Call)
    requires x.SetCall? && CallStep(policy, s, x)
    ensures |x.value| >= 1
  {
    hide SetSpec;
  }

  lemma AttemptDrops(a: Arena, k: Key, v: Value)
    requires a.Valid() && |v| >= 1
    ensures Attempt(a, k, v).0 == StatusCompact ==> Attempt(a, k, v).1.table == Remove(a.table, k)
  {
  }

  /** What a first call has replaced is out of the table when it answers COMPACT. */
  lemma ReplacedGone(policy: Policy, s: State, x: Call)
    requires Agreeing(s) && x.SetCall? && x.given == [] && CallStep(policy, s, x) && x.st == StatusCompact
    ensures forall g :: g in x.replaced ==> !Has(x.after.arena.table, g)
  {
    hide SetSpec;
    hide Attempt;
    hide Serve;
    hide ReqEntries;
    NoneReplaced(policy, s, x.key, x.value, x.st, x.after, x.replaced, x.picked, x.order);
    SpecIsServe(policy, s, x);
    var a := Evicted(s.arena, Dropped(s, x));
    AttemptDrops(a, x.key, x.value);
    PurgeSound(s.arena.table, s.arena.es, s.arena.total, Dropped(s, x));
    forall g | g in x.replaced
      ensures !Has(x.after.arena.table, g)
    {
      RemoveElements(a.table, x.key);
      assert Has(x.after.arena.table, g) ==> EntryOf(x.after.arena.table, g) in a.table;
    }
  }

  /** The last call of a request, and the state that it starts from. */
  function LastFrom(s: State, xs: seq<Call>): State {
    if |xs| == 3 then xs[1].after else s
  }

  lemma LastOfThree(policy: Policy, s: State, xs: seq<Call>)
    requires |xs| == 3 && OneRequest(xs) && Agreeing(s) && CallRun(policy, s, xs) && xs[0].key !in NO_KEYS
    ensures xs[2].SetCall? && CallStep(policy, xs[1].after, xs[2]) && GivenGone(xs[1].after, xs[2])
    ensures InStep(xs[1].after.arena, xs[1].after.slots) && !Has(xs[1].after.arena.table, xs[0].key)
    ensures |xs[1].after.slots| == |s.slots|
    ensures var e := Emptied(s, xs[0]);
            && xs[1].after.arena.es == s.arena.es && xs[1].after.arena.total == s.arena.total
            && xs[0].after.arena.Valid() && xs[0].after.arena.es == s.arena.es
            && xs[1].after.arena == Compacted(xs[0].after.arena)
            && xs[1].after.arena.Left() == e.Left() + Held(e, xs[0].key)
            && Used(xs[0].after.arena.table, s.arena.es) == s.arena.total - xs[1].after.arena.Left()
            && forall q: nat :: q < |s.slots| ==>
                 (xs[1].after.slots[q].kind == UsedSlot
                  <==> EmptiedSlots(s, xs[0])[q].kind == UsedSlot && Used(xs[0].after.arena.table, s.arena.es) <= q)
  {
    ThreeCalls(policy, s, xs);
    AskedToCompact(policy, s, xs[0]);
    CompactionInStep(policy, xs[0].after, xs[1]);
  }

  /** A whole SET request from agreeing tables, under any policy: they agree at its end if and
      only if the condition holds for its last call. */
  lemma RequestAgreesIff(policy: Policy, s: State, xs: seq<Call>)
    requires Agreeing(s) && OneRequest(xs) && CallRun(policy, s, xs) && xs[0].SetCall? && xs[0].key !in NO_KEYS
    ensures LastFrom(s, xs).arena.Valid() && xs[|xs| - 1].SetCall?
    ensures Agreeing(Final(s, xs)) <==> CallFits(LastFrom(s, xs), xs[|xs| - 1])
  {
    hide CallStep;
    hide CallFits;
    hide CallRun;
    if |xs| == 1 {
      FirstCall(policy, s, xs);
      CallAgreesIff(policy, s, xs[0]);
    } else {
      LastOfThree(policy, s, xs);
      CallAgreesIff(policy, xs[1].after, xs[2]);
    }
  }

  // ----- what that means before the request -----

  /** The retry of a key that is out of the table and fits in the free slots: it is placed behind
      the packed entries. */
  lemma RetryPlaces(policy: Policy, s: State, y: Call, a: Arena)
    requires a.Valid() && s.arena == Compacted(a) && s.arena.Valid() && y.SetCall? && CallStep(policy, s, y)
    requires !Has(s.arena.table, y.key) && Blocks(|y.value|, a.es) <= a.Left() && !Has(a.table, y.key)
    ensures y.st == StatusOk && Emptied(s, y) == s.arena && EmptiedSlots(s, y) == s.slots
    ensures Spot(s.arena.table, a.es, a.total, y.key, |y.value|) == Used(a.table, a.es)
  {
    CompactionSound(a);
    RetryAfterCompaction(a, y.key, y.value);
    PurgeNone(s.arena.table);
  }

  /** A SET that needs no eviction, of a live key or not, of any size. It ends with agreeing tables
      if and only if its first call does not move the value elsewhere and gives it no fewer slots;
      so a value that grows by way of a compaction always does. */
  lemma RewriteAgreesIff(policy: Policy, s: State, xs: seq<Call>)
    requires Agreeing(s) && OneRequest(xs) && CallRun(policy, s, xs) && xs[0].SetCall? && xs[0].key !in NO_KEYS
    requires |xs[0].value| >= 1 && !Evicts(s, xs[0].key, xs[0].value)
    ensures var a, k, v := s.arena, xs[0].key, xs[0].value;
            && (Agreeing(Final(s, xs))
                <==> (Attempt(a, k, v).0 == StatusOk ==> StaysPut(a.table, a.es, a.total, k, |v|)))
            && (Attempt(a, k, v).0 == StatusCompact ==> xs[|xs| - 1].SetCall? && xs[|xs| - 1].st == StatusOk)
  {
    hide CallRun;
    hide CallStep;
    hide CallFits;
    RequestAgreesIff(policy, s, xs);
    if |xs| == 1 {
      FirstCall(policy, s, xs);
      NoEviction(policy, s, xs[0]);
    } else {
      ThreeCalls(policy, s, xs);
      NoEviction(policy, s, xs[0]);
      RetryFits(policy, s, xs);
    }
  }

  lemma NoEviction(policy: Policy, s: State, x: Call)
    requires Agreeing(s) && x.SetCall? && CallStep(policy, s, x) && !Evicts(s, x.key, x.value)
    ensures Emptied(s, x) == s.arena && EmptiedSlots(s, x) == s.slots
    ensures x.st == Attempt(s.arena, x.key, x.value).0
    ensures CallFits(s, x)
            <==> (x.st == StatusOk ==> StaysPut(s.arena.table, s.arena.es, s.arena.total, x.key, |x.value|))
  {
    hide Attempt;
    hide Spot;
    PurgeNone(s.arena.table);
    UsedAtMostTotal(s.arena.table, s.arena.es, s.arena.total);
  }

  lemma RetryFits(policy: Policy, s: State, xs: seq<Call>)
    requires |xs| == 3 && OneRequest(xs) && Agreeing(s) && CallRun(policy, s, xs) && xs[0].key !in NO_KEYS
    requires !Evicts(s, xs[0].key, xs[0].value)
    ensures xs[1].after.arena.Valid() && xs[2].st == StatusOk && CallFits(xs[1].after, xs[2])
  {
    hide CallRun;
    hide CallStep;
    hide CallFits;
    hide Emptied;
    hide EmptiedSlots;
    ThreeCalls(policy, s, xs);
    LastOfThree(policy, s, xs);
    AskedToCompact(policy, s, xs[0]);
    NoEviction(policy, s, xs[0]);
    RetryPlaces(policy, xs[1].after, xs[2], xs[0].after.arena);
    NothingMarked(s, xs[0], xs[1].after, xs[2]);
  }

  lemma NothingMarked(s: State, x: Call, s2: State, y: Call)
    requires s.arena.Valid() && s2.arena.Valid() && x.SetCall? && y.SetCall? && y.st == StatusOk
    requires NoneUsed(s.slots) && EmptiedSlots(s, x) == s.slots && |s2.slots| == |s.slots|
    requires Emptied(s2, y) == s2.arena && EmptiedSlots(s2, y) == s2.slots && !Has(s2.arena.table, y.key)
    requires forall q: nat :: q < |s.slots| && s2.slots[q].kind == UsedSlot ==> s.slots[q].kind == UsedSlot
    ensures CallFits(s2, y)
  {
    hide Spot;
    hide Emptied;
    hide EmptiedSlots;
  }

  // ----- with an eviction -----

  /** The condition when exactly the missing slots are evicted, on what the first call finds. A key
      that is absent, or a victim itself, is no trouble. A live one that is placed at once stays
      put and its block takes every victim's slot; one that has to grow by way of a compaction
      has no victim in the last slots, as many as it held before. */
  ghost predicate EvictionFits(s: State, x: Call)
    requires s.arena.Valid() && x.SetCall?
  {
    var a, k, n := Emptied(s, x), x.key, Blocks(|x.value|, s.arena.es);
    !Has(a.table, k) ||
    match x.st
    case StatusOk =>
      && StaysPut(a.table, a.es, a.total, k, |x.value|)
      && forall q :: q in x.picked ==> EntryOf(a.table, k).number <= q < EntryOf(a.table, k).number + n
    case StatusCompact => forall q :: q in x.picked ==> q < a.total - Held(a, k)
    case _ => false
  }

  /** A SET whose eviction is exact: as many victims as slots are missing, and then as many free
      slots as the value takes. */
  ghost predicate EvictsExactly(policy: Policy, s: State, x: Call)
    requires s.arena.Valid() && x.SetCall?
  {
    var n := Blocks(|x.value|, s.arena.es);
    && Evicts(s, x.key, x.value) && n <= s.arena.Left() + AtomicCount(s.arena.table, s.arena.es)
    && ExactPolicy(policy, s.slots, n, s.arena.Left())
  }

  lemma EvictionIsExact(policy: Policy, s: State, x: Call)
    requires Agreeing(s) && x.SetCall? && x.given == [] && CallStep(policy, s, x) && EvictsExactly(policy, s, x)
    ensures |x.value| >= 1
    ensures Victims(s.slots, x.picked) && |x.picked| == Blocks(|x.value|, s.arena.es) - s.arena.Left() > 0
    ensures Emptied(s, x).Left() == Blocks(|x.value|, s.arena.es)
    ensures EmptiedSlots(s, x) == Marked(s.slots, x.picked)
    ensures (x.st, x.after.arena) == Attempt(Emptied(s, x), x.key, x.value)
  {
    hide Attempt;
    hide SlotsAfter;
    hide PointerMoves;
    hide Chosen;
    hide ExactPolicy;
    hide AtomicCount;
    hide Used;
    hide Blocks;
    hide KeysAt;
    var a, n := s.arena, Blocks(|x.value|, s.arena.es);
    UsedAtMostTotal(a.table, a.es, a.total);
    ChosenExact(policy, a, s.slots, s.pointer, n, x.picked, x.order);
    EvictionFrees(a.table, a.es, a.total, s.slots, x.picked);
    assert [] + KeysAt(s.slots, x.picked) == KeysAt(s.slots, x.picked);
  }

  /** A block of all the free slots leaves none free. */
  lemma FullBlock(a: Arena, k: Key, v: Value, p: int, q: nat)
    requires a.Valid() && |v| >= 1 && !Has(a.table, k) && Blocks(|v|, a.es) == a.Left()
    requires FreeRun(a.table, a.es, a.total, p, Blocks(|v|, a.es)) && q < a.total && !Occupied(a.table, a.es, q)
    ensures p <= q < p + Blocks(|v|, a.es)
  {
    var u, e := Put(a.table, k, |v|, p), Entry(p, |v|, k);
    PutWellPlaced(a.table, a.es, a.total, k, |v|, p);
    FullTableOccupies(u, a.es, a.total, q);
    var j :| 0 <= j < |u| && u[j].number <= q < End(u[j], a.es);
    InsertElements(a.table, e);
    assert u[j] in u;
    NotOccupiedSlot(a.table, a.es, q);
    assert u[j] in a.table ==> Covers(u[j], a.es, q);
  }

  /** The first call, when it does not ask for a compaction. */
  lemma EvictedOnce(policy: Policy, s: State, x: Call)
    requires Agreeing(s) && x.SetCall? && x.given == [] && CallStep(policy, s, x) && EvictsExactly(policy, s, x)
    requires x.key !in NO_KEYS && x.st != StatusCompact
    ensures CallFits(s, x) <==> EvictionFits(s, x)
  {
    hide CallStep;
    hide EvictsExactly;
    hide CallFits;
    hide EvictionFits;
    hide Emptied;
    hide EmptiedSlots;
    EvictionIsExact(policy, s, x);
    EmptiedInStep(policy, s, x);
    OnceFits(s, x);
  }

  lemma OnceFits(s: State, x: Call)
    requires s.arena.Valid() && x.SetCall? && |x.value| >= 1 && |x.picked| > 0
    requires NoneUsed(s.slots) && InRange(x.picked, |s.slots|) && EmptiedSlots(s, x) == Marked(s.slots, x.picked)
    requires InStep(Emptied(s, x), EmptiedSlots(s, x)) && Emptied(s, x).Left() == Blocks(|x.value|, s.arena.es)
    requires x.st == Attempt(Emptied(s, x), x.key, x.value).0 && x.st != StatusCompact
    ensures CallFits(s, x) <==> EvictionFits(s, x)
  {
    hide Attempt;
    hide Spot;
    hide Emptied;
    hide EmptiedSlots;
    hide Tracks;
    hide WellPlaced;
    hide Marked;
    hide OrdinaryKeys;
    var a := Emptied(s, x);
    MarkedUsed(s.slots, x.picked);
    assert x.picked[0] in x.picked;
    if !Has(a.table, x.key) {
      AbsentAttempt(a, x.key, x.value);
      AbsentTakesAll(a, EmptiedSlots(s, x), x.key, x.value);
    }
  }

  lemma MarkedUsed(slots: seq<Slot>, picked: seq<nat>)
    requires NoneUsed(slots) && InRange(picked, |slots|)
    ensures forall q: nat :: q < |slots| ==> (Marked(slots, picked)[q].kind == UsedSlot <==> q in picked)
    ensures forall q :: q in picked ==> q < |slots|
  {
  }

  lemma AbsentTakesAll(a: Arena, slots: seq<Slot>, k: Key, v: Value)
    requires InStep(a, slots) && |v| >= 1 && !Has(a.table, k) && Blocks(|v|, a.es) == a.Left()
    requires Attempt(a, k, v).0 == StatusOk
    ensures UsedWithin(slots, Spot(a.table, a.es, a.total, k, |v|), Blocks(|v|, a.es))
  {
    var p, n := Spot(a.table, a.es, a.total, k, |v|), Blocks(|v|, a.es);
    SpotIsFree(a.table, a.es, a.total, k, |v|);
    forall q: nat | q < |slots| && slots[q].kind == UsedSlot
      ensures p <= q < p + n
    {
      MarkedNotOccupied(a.table, a.es, slots, q);
      FullBlock(a, k, v, p, q);
    }
  }

  lemma MarkedNotOccupied(t: seq<Entry>, es: nat, slots: seq<Slot>, q: nat)
    requires es >= 1 && Tracks(t, es, slots) && q < |slots| && slots[q].kind == UsedSlot
    ensures !Occupied(t, es, q)
  {
    forall j | 0 <= j < |t|
      ensures !(t[j].number <= q < End(t[j], es))
    {
      assert t[j] in t && (Covers(t[j], es, q) ==> Matches(slots[q], t[j], es));
    }
  }

  /** The retry, when it asked for one. */
  lemma EvictedAndRetried(policy: Policy, s: State, xs: seq<Call>)
    requires |xs| == 3 && OneRequest(xs) && Agreeing(s) && CallRun(policy, s, xs) && xs[0].key !in NO_KEYS
    requires EvictsExactly(policy, s, xs[0])
    ensures xs[1].after.arena.Valid() && xs[2].st == StatusOk
    ensures CallFits(xs[1].after, xs[2]) <==> EvictionFits(s, xs[0])
  {
    hide CallRun;
    hide CallStep;
    hide EvictsExactly;
    hide Emptied;
    hide EmptiedSlots;
    hide CallFits;
    hide EvictionFits;
    ThreeCalls(policy, s, xs);
    LastOfThree(policy, s, xs);
    AskedToCompact(policy, s, xs[0]);
    EvictionIsExact(policy, s, xs[0]);
    RetryPlaces(policy, xs[1].after, xs[2], xs[0].after.arena);
    MarkedUsed(s.slots, xs[0].picked);
    RetriedFits(s, xs[0], xs[1].after, xs[2], Used(xs[0].after.arena.table, s.arena.es));
  }

  lemma RetriedFits(s: State, x: Call, s2: State, y: Call, p: nat)
    requires s.arena.Valid() && s2.arena.Valid() && x.SetCall? && y.SetCall? && y.key == x.key && y.value == x.value
    requires x.st == StatusCompact && y.st == StatusOk && !Has(s2.arena.table, y.key)
    requires Emptied(s2, y) == s2.arena && EmptiedSlots(s2, y) == s2.slots
    requires s2.arena.es == s.arena.es && s2.arena.total == s.arena.total && |s2.slots| == |s.slots| == s.arena.total
    requires Spot(s2.arena.table, s.arena.es, s.arena.total, y.key, |y.value|) == p
    requires p + Blocks(|y.value|, s.arena.es) == s.arena.total - Held(Emptied(s, x), x.key)
    requires InRange(x.picked, |s.slots|)
    requires forall q: nat :: q < |s.slots| ==> (s2.slots[q].kind == UsedSlot <==> q in x.picked && p <= q)
    ensures CallFits(s2, y) <==> EvictionFits(s, x)
  {
    hide Spot;
    hide Emptied;
    hide EmptiedSlots;
    var n, a := Blocks(|y.value|, s.arena.es), Emptied(s, x);
    forall q | q in x.picked
      ensures q < |s.slots|
    {
      var i :| 0 <= i < |x.picked| && x.picked[i] == q;
    }
    assert UsedWithin(s2.slots, p, n) <==> forall q :: q in x.picked ==> q < p + n;
  }

  /** A whole SET request that evicts exactly what is missing, under a policy that does: it ends
      with agreeing tables if and only if the condition holds for its first call. */
  lemma EvictingAgreesIff(policy: Policy, s: State, xs: seq<Call>)
    requires Agreeing(s) && OneRequest(xs) && CallRun(policy, s, xs) && xs[0].SetCall? && xs[0].key !in NO_KEYS
    requires EvictsExactly(policy, s, xs[0])
    ensures Agreeing(Final(s, xs)) <==> EvictionFits(s, xs[0])
  {
    hide CallRun;
    hide CallStep;
    hide CallFits;
    hide EvictionFits;
    RequestAgreesIff(policy, s, xs);
    if |xs| == 1 {
      FirstCall(policy, s, xs);
      EvictedOnce(policy, s, xs[0]);
    } else {
      EvictedAndRetried(policy, s, xs);
    }
  }

  /** Distinct numbers of a range are no more than the range is long. */
  lemma {:induction false} DistinctInRange(s: seq<nat>, lo: int, hi: int)
    requires Distinct(s) && lo <= hi && forall x :: x in s ==> lo <= x < hi
    ensures |s| <= hi - lo
    decreases hi - lo
  {
    if s != [] {
      assert s[0] in s;
      if i: nat :| i < |s| && s[i] == hi - 1 {
        var rest := s[..i] + s[i + 1..];
        forall x | x in rest
          ensures lo <= x < hi - 1
        {
          var j :| 0 <= j < |rest| && rest[j] == x;
          assert s[if j < i then j else j + 1] == x && x in s;
        }
        DistinctInRange(rest, lo, hi - 1);
      } else {
        DistinctInRange(s, lo, hi - 1);
      }
    }
  }

  /** A live key that survives the eviction and held more slots than were free: when its SET
      succeeds at once, whether the value moves or stays, the tables never agree at the end. */
  lemma LongBlockNeverAgrees(policy: Policy, s: State, xs: seq<Call>)
    requires Agreeing(s) && OneRequest(xs) && CallRun(policy, s, xs) && xs[0].SetCall? && xs[0].key !in NO_KEYS
    requires EvictsExactly(policy, s, xs[0]) && xs[0].st == StatusOk
    requires Has(Emptied(s, xs[0]).table, xs[0].key) && Held(Emptied(s, xs[0]), xs[0].key) > s.arena.Left()
    ensures !Agreeing(Final(s, xs))
  {
    hide CallRun;
    hide CallStep;
    hide EvictsExactly;
    hide Emptied;
    hide EmptiedSlots;
    EvictingAgreesIff(policy, s, xs);
    FirstCall(policy, s, xs);
    EvictionIsExact(policy, s, xs[0]);
    EmptiedInStep(policy, s, xs[0]);
    if EvictionFits(s, xs[0]) {
      VictimsBehind(s, xs[0]);
    }
  }

  lemma VictimsBehind(s: State, x: Call)
    requires s.arena.Valid() && x.SetCall? && |x.value| >= 1 && NoneUsed(s.slots) && Victims(s.slots, x.picked)
    requires EmptiedSlots(s, x) == Marked(s.slots, x.picked) && InStep(Emptied(s, x), EmptiedSlots(s, x))
    requires Has(Emptied(s, x).table, x.key) && EvictionFits(s, x) && x.st == StatusOk
    ensures |x.picked| <= Blocks(|x.value|, s.arena.es) - Held(Emptied(s, x), x.key)
  {
    hide Emptied;
    hide EmptiedSlots;
    hide Spot;
    var a, n := Emptied(s, x), Blocks(|x.value|, s.arena.es);
    var e := EntryOf(a.table, x.key);
    MarkedUsed(s.slots, x.picked);
    forall q | q in x.picked
      ensures End(e, a.es) <= q < e.number + n
    {
      MarkedNotOccupied(a.table, a.es, EmptiedSlots(s, x), q);
      NotOccupiedSlot(a.table, a.es, q);
      assert !Covers(e, a.es, q);
    }
    DistinctInRange(x.picked, End(e, a.es), e.number + n);
  }
}
