/** A rewrite that stays where it is, takes more slots and still ends with tables that disagree: it
    grows over one victim's slot, and the slots of the other victims stay marked. */
module OverVictims {
  import opened EntryTable
  import opened Storage
  import opened Slots
  import opened Agreement
  import opened Policies
  import opened SetRuns
  import opened SetSpecs

  const K := Entry(0, 2, "k")
  const X := Entry(2, 1, "x")
  const Y := Entry(3, 1, "y")
  const Z := Entry(4, 1, "z")
  const TABLE: seq<Entry> := [K, X, Y, Z]
  const STATUSES: seq<Slot> := [SlotOf(K, 1), SlotOf(K, 1), SlotOf(X, 1), SlotOf(Y, 1), SlotOf(Z, 1)]

  /** Five slots of one byte, all of them taken. */
  function Before(bytes: seq<Byte>, hand: nat): State {
    State(Arena(5, 1, TABLE, bytes), STATUSES, hand)
  }

  lemma Agree(bytes: seq<Byte>, hand: nat)
    requires |bytes| == 5
    ensures Agreeing(Before(bytes, hand))
  {
    hide WellPlaced;
    hide Tracks;
    hide OrdinaryKeys;
    hide Offset;
    FewUnitSlots();
    Placed();
    InTurn();
    assert forall q: nat :: q < 5 ==> STATUSES[q].kind != UsedSlot;
  }

  lemma Placed()
    ensures WellPlaced(TABLE, 1, 5) && OrdinaryKeys(TABLE)
  {
    FewUnitSlots();
  }

  lemma InTurn()
    ensures Tracks(TABLE, 1, STATUSES)
  {
    FewUnitSlots();
    AllOccupied();
    forall e, q: nat | e in TABLE && q < 5 && Covers(e, 1, q)
      ensures Matches(STATUSES[q], e, 1)
    {
      assert e == K || e == X || e == Y || e == Z;
      assert q == if e == K then q else e.number;
    }
  }

  lemma AllOccupied()
    ensures forall q: nat :: q < 5 ==> Occupied(TABLE, 1, q)
  {
    FewUnitSlots();
    forall q: nat | q < 5
      ensures Occupied(TABLE, 1, q)
    {
      var j := if q < 2 then 0 else q - 1;
      assert TABLE[j].number <= q < End(TABLE[j], 1);
    }
  }

  lemma Taken()
    ensures Used(TABLE, 1) == 5 && AtomicCount(TABLE, 1) == 3
    ensures Has(TABLE, "k") && EntryOf(TABLE, "k") == K
  {
    FewUnitSlots();
    assert TABLE[..3] == [K, X, Y] && [K, X, Y][..2] == [K, X] && [K, X][..1] == [K] && [K][..0] == [];
    assert Used([K], 1) == 2 && Used([K, X], 1) == 3 && Used([K, X, Y], 1) == 4;
    assert AtomicCount([K], 1) == 0 && AtomicCount([K, X], 1) == 1 && AtomicCount([K, X, Y], 1) == 2;
    assert TABLE[0].key == "k";
  }

  /** Three victims, and there are only three atomic values. */
  lemma AllThree(picked: seq<nat>)
    requires Victims(STATUSES, picked) && |picked| == 3
    ensures forall q :: q in picked <==> 2 <= q < 5
    ensures forall j :: j in KeysAt(STATUSES, picked) <==> j in {"x", "y", "z"}
  {
    FewUnitSlots();
    assert STATUSES[0].kind == NonAtomicSlot && STATUSES[1].kind == NonAtomicSlot;
    var a, b, c := picked[0], picked[1], picked[2];
    assert STATUSES[a].kind == AtomicSlot && STATUSES[b].kind == AtomicSlot && STATUSES[c].kind == AtomicSlot;
    assert 2 <= a < 5 && 2 <= b < 5 && 2 <= c < 5 && a != b && a != c && b != c;
    assert picked == [a, b, c];
    var ks := KeysAt(STATUSES, picked);
    assert ks == [STATUSES[a].key, STATUSES[b].key, STATUSES[c].key];
  }

  lemma OnlyK(ks: seq<Key>)
    requires forall j :: j in ks <==> j in {"x", "y", "z"}
    requires WellPlaced(TABLE, 1, 5)
    ensures Purge(TABLE, ks) == [K]
  {
    PurgeSound(TABLE, 1, 5, ks);
    var u := Purge(TABLE, ks);
    assert TABLE[0] == K && K in u;
    forall i | 0 <= i < |u|
      ensures u[i] == K
    {
      assert u[i] in u;
    }
    assert |u| > 1 ==> u[0].key != u[1].key;
  }

  lemma EvictedIs(bytes: seq<Byte>, ks: seq<Key>)
    requires Arena(5, 1, TABLE, bytes).Valid() && forall j :: j in ks <==> j in {"x", "y", "z"}
    ensures Evicted(Arena(5, 1, TABLE, bytes), ks) == Arena(5, 1, [K], bytes)
    ensures KeySet(ks) == {"x", "y", "z"}
  {
    OnlyK(ks);
  }

  /** Alone in the table, the value of three bytes goes where the one of two bytes is. */
  lemma InPlace(bytes: seq<Byte>, v: Value)
    requires |bytes| == 5 && |v| == 3
    ensures Arena(5, 1, [K], bytes).Valid()
    ensures Attempt(Arena(5, 1, [K], bytes), "k", v).0 == StatusOk
    ensures Spot([K], 1, 5, "k", 3) == 0 && Put([K], "k", 3, 0) == [Entry(0, 3, "k")]
  {
    FewUnitSlots();
    assert [K][0].key == "k" && Has([K], "k") && EntryOf([K], "k") == K && Remove([K], "k") == [];
    assert [K][..0] == [] && Used([K], 1) == 2;
    assert forall q :: 2 <= q < 3 ==> !Occupied([K], 1, q);
    assert Grows([K], 1, 5, K, 3);
  }

  /** Under every policy: the answer is OK, the value grows in place, the three other keys are
      replaced, and the last two slots stay marked with their keys. */
  lemma GrowsOverVictims(policy: Policy, bytes: seq<Byte>, hand: nat, v: Value, st: Status, after: State,
                         replaced: seq<Key>, picked: seq<nat>, order: seq<nat>)
    requires |bytes| == 5 && |v| == 3 && policy != UnknownPolicy && Before(bytes, hand).arena.Valid()
    requires SetSpec(policy, Before(bytes, hand), "k", v, [], st, after, replaced, picked, order)
    ensures st == StatusOk && KeySet(replaced) == {"x", "y", "z"} && after.arena.table == [Entry(0, 3, "k")]
    ensures |after.slots| == 5 && after.slots[3].kind == UsedSlot && after.slots[4].kind == UsedSlot
    ensures !Agreeing(after)
  {
    hide Attempt;
    hide SlotsAfter;
    hide SetSpec;
    hide Victims;
    hide KeysAt;
    hide Evicted;
    hide Marked;
    hide InStep;
    hide Blocks;
    AllEvicted(policy, bytes, hand, v, st, after, replaced, picked, order);
    AllThree(picked);
    EvictedIs(bytes, replaced);
    InPlace(bytes, v);
    Outcome(bytes, v, picked);
  }

  /** Three slots are needed and none is free, so three victims go. */
  lemma AllEvicted(policy: Policy, bytes: seq<Byte>, hand: nat, v: Value, st: Status, after: State,
                   replaced: seq<Key>, picked: seq<nat>, order: seq<nat>)
    requires |bytes| == 5 && |v| == 3 && policy != UnknownPolicy && Before(bytes, hand).arena.Valid()
    requires SetSpec(policy, Before(bytes, hand), "k", v, [], st, after, replaced, picked, order)
    ensures Victims(STATUSES, picked) && |picked| == 3 && replaced == KeysAt(STATUSES, picked)
    ensures var a := Evicted(Arena(5, 1, TABLE, bytes), replaced);
            && (st, after.arena) == Attempt(a, "k", v)
            && after.slots == SlotsAfter(a, Marked(STATUSES, picked), "k", v)
  {
    hide Attempt;
    hide SlotsAfter;
    hide PointerMoves;
    hide Blocks;
    hide Agrees;
    hide Tracks;
    var s := Before(bytes, hand);
    FewUnitSlots();
    Agree(bytes, hand);
    Taken();
    assert DiffEntries(TABLE, 1, "k", 3) == 1;
    ChosenExact(policy, s.arena, s.slots, hand, 3, picked, order);
    assert [] + KeysAt(STATUSES, picked) == KeysAt(STATUSES, picked);
  }

  lemma Outcome(bytes: seq<Byte>, v: Value, picked: seq<nat>)
    requires |bytes| == 5 && |v| == 3 && Arena(5, 1, [K], bytes).Valid()
    requires Attempt(Arena(5, 1, [K], bytes), "k", v).0 == StatusOk && Spot([K], 1, 5, "k", 3) == 0
    requires forall q :: q in picked <==> 2 <= q < 5
    ensures var slots := SlotsAfter(Arena(5, 1, [K], bytes), Marked(STATUSES, picked), "k", v);
            |slots| == 5 && slots[3].kind == UsedSlot && slots[4].kind == UsedSlot
    ensures Attempt(Arena(5, 1, [K], bytes), "k", v).1.table == Put([K], "k", 3, 0)
  {
    FewUnitSlots();
  }
}
