/** An answer of COMPACT that is not kept: a live value that has to grow, next to one atomic key,
    in a full arena. */
module BrokenPromise {
  import opened EntryTable
  import opened Storage
  import opened Compaction
  import opened Slots
  import opened Agreement
  import opened Policies
  import opened SetRuns
  import opened SetSpecs

  const K := Entry(0, 2, "k")
  const X := Entry(2, 1, "x")
  const W := Entry(3, 2, "w")

  /** Five slots of one byte, all of them taken. */
  function Full(bytes: seq<Byte>): Arena {
    Arena(5, 1, [K, X, W], bytes)
  }

  const STATUSES: seq<Slot> := [SlotOf(K, 1), SlotOf(K, 1), SlotOf(X, 1), SlotOf(W, 1), SlotOf(W, 1)]

  lemma Placed(bytes: seq<Byte>)
    requires |bytes| == 5
    ensures Full(bytes).Valid() && OrdinaryKeys([K, X, W])
  {
    FewUnitSlots();
  }

  lemma Taken()
    ensures Used([K, X, W], 1) == 5 && Used([X, W], 1) == 3 && AtomicCount([K, X, W], 1) == 1
  {
    FewUnitSlots();
    assert [K, X, W][..2] == [K, X] && [K, X][..1] == [K] && [K][..0] == [];
    assert [X, W][..1] == [X] && [X][..0] == [];
    assert Used([K], 1) == 2 && Used([X], 1) == 1;
    assert AtomicCount([K], 1) == 0 && AtomicCount([K, X], 1) == 1;
  }

  lemma Removed()
    ensures IndexOf([K, X, W], "k") == 0 && Remove([K, X, W], "k") == [X, W]
    ensures !Has([X, W], "k")
  {
    assert [X, W][0].key == "x" && [X, W][1].key == "w";
    assert [K, X, W][0].key == "k";
  }

  /** Between x and the end of the arena nothing is free, before x there are two slots. */
  lemma NoRun()
    ensures FirstFit([X, W], 1, 5, 3) == -1
  {
    FewUnitSlots();
    var t := [X, W];
    forall q | 0 <= q
      ensures !FreeRun(t, 1, 5, q, 3)
    {
      assert t[0].number <= 2 < End(t[0], 1);
      assert Occupied(t, 1, 2);
    }
    FirstFitIs(t, 1, 5, 3, -1);
  }

  function Before(bytes: seq<Byte>, hand: nat): State {
    State(Full(bytes), STATUSES, hand)
  }

  /** What the SET leaves: the key is out of both tables. */
  function After(bytes: seq<Byte>, hand: nat): State {
    State(Arena(5, 1, [X, W], bytes), Cleared(STATUSES, "k", 3), hand)
  }

  lemma Agree(bytes: seq<Byte>, hand: nat)
    requires |bytes| == 5
    ensures Agreeing(Before(bytes, hand))
  {
    FewUnitSlots();
    Placed(bytes);
    var t := [K, X, W];
    assert t[0] == K && t[1] == X && t[2] == W;
    forall q: nat | q < 5
      ensures Occupied(t, 1, q)
    {
      var j := if q < 2 then 0 else if q == 2 then 1 else 2;
      assert t[j].number <= q < End(t[j], 1);
    }
  }

  lemma WithoutK(bytes: seq<Byte>)
    requires |bytes| == 5
    ensures Arena(5, 1, [X, W], bytes).Valid() && Arena(5, 1, [X, W], bytes).Left() == 2
  {
    Placed(bytes);
    Removed();
    RemoveWellPlaced([K, X, W], 1, 5, "k");
    Taken();
  }

  /** Under every policy: one slot is missing and there is one atomic key, so the SET is not
      refused; but the value takes three slots, so nothing is evicted; and there is no run. */
  lemma AsksForCompaction(policy: Policy, bytes: seq<Byte>, hand: nat, v: Value)
    requires |bytes| == 5 && |v| == 3
    ensures Before(bytes, hand).arena.Valid()
    ensures SetSpec(policy, Before(bytes, hand), "k", v, [], StatusCompact, After(bytes, hand), [], [], [])
  {
    hide Attempt;
    hide SlotsAfter;
    hide Blocks;
    FewUnitSlots();
    Placed(bytes);
    Taken();
    Removed();
    NoRunForIt(bytes, hand, v);
    var a := Full(bytes);
    assert EntryOf(a.table, "k") == K && DiffEntries(a.table, 1, "k", 3) == 1;
    assert Purge(a.table, []) == a.table && Evicted(a, []) == a;
    assert Marked(STATUSES, []) == STATUSES;
    assert KeysAt(STATUSES, []) == [];
  }

  lemma NoRunForIt(bytes: seq<Byte>, hand: nat, v: Value)
    requires |bytes| == 5 && |v| == 3 && Full(bytes).Valid()
    ensures Attempt(Full(bytes), "k", v) == (StatusCompact, After(bytes, hand).arena)
    ensures SlotsAfter(Full(bytes), STATUSES, "k", v) == After(bytes, hand).slots
  {
    FewUnitSlots();
    Removed();
    NoRun();
  }

  /** It reports six slots of five; and whatever the second call does, it does not keep to that:
      it fails, or evicts another key. */
  lemma CompactNotKept(policy: Policy, bytes: seq<Byte>, hand: nat, v: Value, s2: State,
                       final: Status, s3: State, replaced: seq<Key>, picked: seq<nat>, order: seq<nat>)
    requires |bytes| == 5 && |v| == 3 && After(bytes, hand).arena.Valid()
    requires s2.arena == Compacted(After(bytes, hand).arena) && s2.arena.Valid()
    requires SetSpec(policy, s2, "k", v, [], final, s3, replaced, picked, order)
    ensures 5 - After(bytes, hand).arena.Left() + Blocks(|v|, 1) == 6
    ensures final == StatusOk ==> picked != [] && s3.arena.Valid() && 5 - s3.arena.Left() != 6
  {
    FewUnitSlots();
    WithoutK(bytes);
    Removed();
    var a := After(bytes, hand).arena;
    RetryKeepsPromise(policy, After(bytes, hand), s2, "k", v, [], final, s3, replaced, picked, order);
    RetryAfterCompaction(a, "k", v);
    CompactionSound(a);
    if picked == [] {
      NothingEvicted(policy, s2, v, final, s3, replaced, order);
    }
  }

  lemma NothingEvicted(policy: Policy, s: State, v: Value, final: Status, after: State, replaced: seq<Key>,
                       order: seq<nat>)
    requires s.arena.Valid() && |v| == 3 && SetSpec(policy, s, "k", v, [], final, after, replaced, [], order)
    ensures replaced == [] && (final == StatusOk ==> Attempt(s.arena, "k", v).0 == StatusOk)
  {
    assert Purge(s.arena.table, []) == s.arena.table;
    assert KeysAt(s.slots, []) == [];
  }
}
