/** LRU over whole runs: the ages in the status table are the numbers of SETs since the last
    one of each key, so what is evicted is what was set longest ago. */
module LruRuns {
  import opened EntryTable
  import opened Storage
  import opened Slots
  import opened Agreement
  import opened Policies
  import opened SetRuns
  import opened Biggest
  import opened SetSpecs
  import opened InstanceRuns

  /** One SET of an absent key, or of a live one with as many slots, that ended in StatusOk at
      the first attempt. */
  ghost predicate LruStep(before: State, x: Call) {
    && x.SetCall? && x.given == [] && x.st == StatusOk
    && CallStep(LeastRecentlyUsed, before, x) && Regular(LeastRecentlyUsed, before, x)
  }

  ghost predicate LruRun(before: State, steps: seq<Call>)
    decreases |steps|
  {
    steps == [] || (LruStep(before, steps[0]) && LruRun(steps[0].after, steps[1..]))
  }

  /** Every victim was set before every atomic key that survives. */
  ghost predicate OldestEvicted(before: State, x: Call, hist: seq<Key>) {
    x.SetCall? &&
    forall a, b: nat :: a in x.picked && a < |before.slots| && b < |before.slots|
                        && before.slots[b].kind == AtomicSlot && b !in x.picked ==>
      LastSet(hist, before.slots[a].key) < LastSet(hist, before.slots[b].key)
  }

  /** In every step of the run, given the keys set before it. */
  ghost predicate AllOldest(before: State, steps: seq<Call>, hist: seq<Key>)
    decreases |steps|
  {
    || steps == []
    || (OldestEvicted(before, steps[0], hist) && AllOldest(steps[0].after, steps[1..], hist + [steps[0].key]))
  }

  lemma StepKeepsAgreement(before: State, x: Call)
    requires Agreeing(before) && LruStep(before, x)
    ensures Agreeing(x.after)
  {
    FirstCallAgrees(LeastRecentlyUsed, before, x);
  }

  lemma StepKeepsAges(before: State, x: Call, hist: seq<Key>)
    requires Agreeing(before) && LruStep(before, x)
    requires AgesCount(before.arena.table, before.arena.es, before.slots, hist)
    ensures AgesCount(x.after.arena.table, before.arena.es, x.after.slots, hist + [x.key])
    ensures x.after.arena.es == before.arena.es
    ensures OldestEvicted(before, x, hist)
  {
    var a, slots := before.arena, before.slots;
    if Evicts(before, x.key, x.value) {
      VictimsOldest(before, x, hist);
      EvictionKeepsAges(a.table, a.es, a.total, slots, hist, x.picked);
      EvictionTracks(a.table, a.es, a.total, slots, x.picked);
      PlacedKeepsAges(Evicted(a, x.replaced), Marked(slots, x.picked), x, hist);
    } else {
      PlacedKeepsAges(a, slots, x, hist);
    }
  }

  lemma PlacedKeepsAges(a: Arena, slots: seq<Slot>, x: Call, hist: seq<Key>)
    requires x.SetCall? && a.Valid() && |x.value| >= 1 && |slots| == a.total && Tracks(a.table, a.es, slots)
    requires AgesCount(a.table, a.es, slots, hist) && Attempt(a, x.key, x.value).0 == StatusOk
    requires x.after.arena == Attempt(a, x.key, x.value).1 && x.after.slots == SlotsAfter(a, slots, x.key, x.value)
    ensures AgesCount(x.after.arena.table, a.es, x.after.slots, hist + [x.key]) && x.after.arena.es == a.es
  {
    var p := Spot(a.table, a.es, a.total, x.key, |x.value|);
    SpotIsFree(a.table, a.es, a.total, x.key, |x.value|);
    SetKeepsAges(a.table, a.es, a.total, slots, hist, x.key, |x.value|, p);
  }

  /** What the evicting SET picked: the first atomic slots of a ranking by age, or nothing. */
  lemma PickedByAge(before: State, x: Call)
    requires LruStep(before, x) && Evicts(before, x.key, x.value)
    ensures InRange(x.picked, |before.slots|) && x.replaced == KeysAt(before.slots, x.picked)
    ensures x.picked != [] ==>
              && Ranking(x.order, Ages(before.slots)) && Blocks(|x.value|, before.arena.es) >= before.arena.Left()
              && x.picked == Picked(before.slots, x.order, Blocks(|x.value|, before.arena.es) - before.arena.Left())
  {
    hide Attempt;
    hide SlotsAfter;
    hide Picked;
    hide Ranking;
    hide PointerMoves;
    hide AtomicCount;
    hide Regular;
    hide Bsu;
    hide KeysAt;
    hide Blocks;
    hide Used;
    assert [] + KeysAt(before.slots, x.picked) == KeysAt(before.slots, x.picked);
  }

  lemma OldestByAge(a: Arena, slots: seq<Slot>, hist: seq<Key>, order: seq<nat>, n: nat)
    requires InStep(a, slots) && AgesCount(a.table, a.es, slots, hist) && Ranking(order, Ages(slots))
    ensures Victims(slots, Picked(slots, order, n))
    ensures forall i, j: nat :: i in Picked(slots, order, n) && i < |slots| && j < |slots|
                                && slots[j].kind == AtomicSlot && j !in Picked(slots, order, n) ==>
              LastSet(hist, slots[i].key) < LastSet(hist, slots[j].key)
  {
    PickedDistinct(slots, order, n);
    PickedAtomic(slots, order, n);
    forall i, j: nat | i in Picked(slots, order, n) && i < |slots| && j < |slots|
                       && slots[j].kind == AtomicSlot && j !in Picked(slots, order, n)
      ensures LastSet(hist, slots[i].key) < LastSet(hist, slots[j].key)
    {
      LruEvictsLeastRecent(a.table, a.es, a.total, slots, hist, order, n, i, j);
    }
  }

  lemma VictimsOldest(before: State, x: Call, hist: seq<Key>)
    requires Agreeing(before) && LruStep(before, x)
    requires AgesCount(before.arena.table, before.arena.es, before.slots, hist)
    requires Evicts(before, x.key, x.value)
    ensures OldestEvicted(before, x, hist) && Victims(before.slots, x.picked)
    ensures x.replaced == KeysAt(before.slots, x.picked)
  {
    hide CallStep;
    hide Regular;
    hide AgesCount;
    PickedByAge(before, x);
    if x.picked != [] {
      OldestByAge(before.arena, before.slots, hist, x.order, Blocks(|x.value|, before.arena.es) - before.arena.Left());
    }
  }

  /** In a compaction-free run from agreeing tables every eviction takes the keys that were set
      longest ago. */
  lemma {:induction false} LruEvictsOldest(before: State, steps: seq<Call>, hist: seq<Key>)
    requires Agreeing(before) && LruRun(before, steps)
    requires AgesCount(before.arena.table, before.arena.es, before.slots, hist)
    ensures AllOldest(before, steps, hist)
    decreases |steps|
  {
    if steps != [] {
      StepKeepsAges(before, steps[0], hist);
      StepKeepsAgreement(before, steps[0]);
      LruEvictsOldest(steps[0].after, steps[1..], hist + [steps[0].key]);
    }
  }
}
