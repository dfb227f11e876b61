/** What BSU makes of values of one size while some slots are free: it may find no victim, or two
    where one slot is missing, or a number that depends on where the circular pointer stands. */
module EqualSizes {
  import opened EntryTable
  import opened Storage
  import opened Compaction
  import opened Slots
  import opened Agreement
  import opened Policies
  import opened SetRuns
  import opened Biggest
  import opened SetSpecs

  const KEYS: seq<Key> := ["a", "b", "c", "d"]

  /** `n` values of one byte each, in slots of one byte. */
  function Table(n: nat): seq<Entry>
    requires n <= 4
  {
    seq(n, i requires 0 <= i < n => Entry(i, 1, KEYS[i]))
  }

  function Statuses(n: nat, total: nat): (r: seq<Slot>)
    requires n <= 4 && n <= total
    ensures |r| == total
  {
    seq(total, q requires 0 <= q < total => if q < n then Slot(AtomicSlot, KEYS[q], 0, 1) else CLEARED)
  }

  function Singles(n: nat, total: nat, bytes: seq<Byte>, hand: nat): State
    requires n <= 4 && n <= total
  {
    State(Arena(total, 1, Table(n), bytes), Statuses(n, total), hand)
  }

  lemma {:induction false} Taken(n: nat)
    requires n <= 4
    ensures Used(Table(n), 1) == n && AtomicCount(Table(n), 1) == n
  {
    if n > 0 {
      Taken(n - 1);
      UnitSlots(1);
      assert Table(n)[..n - 1] == Table(n - 1);
    }
  }

  lemma Agree(n: nat, total: nat, bytes: seq<Byte>, hand: nat)
    requires n <= 4 && n <= total && |bytes| == total
    ensures Agreeing(Singles(n, total, bytes, hand)) && Singles(n, total, bytes, hand).arena.Left() == total - n
  {
    hide Table;
    hide Statuses;
    hide Tracks;
    hide WellPlaced;
    hide Offset;
    hide Used;
    UnitSlots(total);
    Taken(n);
    Placed(n, total);
    TracksSingles(n, total);
    NoneMarked(n, total);
  }

  lemma Placed(n: nat, total: nat)
    requires n <= 4 && n <= total
    ensures WellPlaced(Table(n), 1, total) && OrdinaryKeys(Table(n))
  {
    UnitSlots(1);
    DistinctNames();
    var t := Table(n);
    assert forall i :: 0 <= i < n ==> Inside(t[i], 1, total);
    hide Blocks;
    assert forall i :: 0 <= i < n ==> t[i].key == KEYS[i];
  }

  lemma DistinctNames()
    ensures forall i, j :: 0 <= i < j < 4 ==> KEYS[i] != KEYS[j]
    ensures forall i :: 0 <= i < 4 ==> KEYS[i] !in NO_KEYS
  {
    assert forall i :: 0 <= i < 4 ==> |KEYS[i]| == 1;
    assert KEYS[0][0] == 'a' && KEYS[1][0] == 'b' && KEYS[2][0] == 'c' && KEYS[3][0] == 'd';
  }

  lemma NoneMarked(n: nat, total: nat)
    requires n <= 4 && n <= total
    ensures NoneUsed(Statuses(n, total))
  {
  }

  lemma TracksSingles(n: nat, total: nat)
    requires n <= 4 && n <= total
    ensures Tracks(Table(n), 1, Statuses(n, total))
  {
    var t, slots := Table(n), Statuses(n, total);
    UnitSlots(1);
    forall e, q: nat | e in t && q < total && Covers(e, 1, q)
      ensures Matches(slots[q], e, 1)
    {
      var i :| 0 <= i < n && t[i] == e;
      assert q == i;
    }
    forall q: nat | q < total && !Occupied(t, 1, q)
      ensures Vacant(t, slots[q])
    {
      assert q < n ==> t[q].number <= q < End(t[q], 1);
      NewKey(n, "NULL");
    }
  }

  lemma NewKey(n: nat, k: Key)
    requires n <= 4 && k !in KEYS
    ensures !Has(Table(n), k)
  {
    assert forall i :: 0 <= i < n ==> Table(n)[i].key in KEYS;
  }

  /** What a call of a new key evicts here is what the algorithm picks. */
  lemma WhatGoes(n: nat, total: nat, bytes: seq<Byte>, hand: nat, k: Key, v: Value, st: Status, after: State,
                 replaced: seq<Key>, picked: seq<nat>, order: seq<nat>)
    requires n <= 4 && n <= total && |bytes| == total && k !in KEYS && total - n < |v| <= total
    requires Singles(n, total, bytes, hand).arena.Valid()
    requires SetSpec(BiggestSpaceUsed, Singles(n, total, bytes, hand), k, v, [], st, after, replaced, picked, order)
    ensures Ranking(order, Sizes(Statuses(n, total))) && InRange(order, total)
    ensures picked == Bsu(Statuses(n, total), order, |v|, total - n, n, hand).picked && |replaced| == |picked|
    ensures (st, after.arena) == Attempt(Evicted(Singles(n, total, bytes, hand).arena, replaced), k, v)
  {
    hide Attempt;
    hide SlotsAfter;
    hide Bsu;
    hide PointerMoves;
    hide Ranking;
    hide Blocks;
    hide Used;
    hide AtomicCount;
    hide Table;
    hide Statuses;
    UnitSlots(|v|);
    Taken(n);
    NewKey(n, k);
  }

  // ----- none -----

  /** Two values of one byte and two free slots: a value of three bytes lacks one slot, either value
      would do, and BSU replaces none. The answer is COMPACT, and reports five slots of four. */
  lemma NoneForOne(bytes: seq<Byte>, hand: nat, k: Key, v: Value, st: Status, after: State,
                   replaced: seq<Key>, picked: seq<nat>, order: seq<nat>)
    requires |bytes| == 4 && |v| == 3 && k !in KEYS && Singles(2, 4, bytes, hand).arena.Valid()
    requires SetSpec(BiggestSpaceUsed, Singles(2, 4, bytes, hand), k, v, [], st, after, replaced, picked, order)
    ensures replaced == [] && st == StatusCompact && after.arena == Singles(2, 4, bytes, hand).arena
    ensures 4 - after.arena.Left() + Blocks(|v|, 1) == 5
  {
    hide SetSpec;
    hide Bsu;
    hide Ranking;
    var a := Singles(2, 4, bytes, hand).arena;
    WhatGoes(2, 4, bytes, hand, k, v, st, after, replaced, picked, order);
    Agree(2, 4, bytes, hand);
    Taken(2);
    UnitSlots(3);
    NoneAlone();
    hide Blocks;
    hide Used;
    hide AtomicCount;
    hide Table;
    hide Statuses;
    BsuFindsNoneIff(a.table, 1, 4, Statuses(2, 4), order, 3, 2, hand);
    assert Evicted(a, []) == a;
    NewKey(2, k);
    AbsentKeyAgrees(a.table, 1, 4, k, 3);
  }

  lemma NoneAlone()
    ensures Table(2) != [] && !exists x :: Alone(Statuses(2, 4), x)
  {
    assert Statuses(2, 4)[0].kind == AtomicSlot && Statuses(2, 4)[1].kind == AtomicSlot;
  }

  // ----- turn by turn, with one free slot -----

  lemma FreeLast(n: nat, order: seq<nat>)
    requires n <= 4 && Ranking(order, Sizes(Statuses(n, n + 1)))
    ensures |order| == n + 1 && order[n] == n && Distinct(order) && forall i :: 0 <= i < n ==> order[i] < n
  {
    var w := Sizes(Statuses(n, n + 1));
    forall i | 0 <= i < n
      ensures order[i] < n
    {
      assert w[order[i]] >= w[order[i + 1]];
    }
    assert n in order;
  }

  lemma {:induction false} AllTie(slots: seq<Slot>, list: seq<nat>, w: int)
    requires InRange(list, |slots|) && forall i :: 0 <= i < |list| ==> slots[list[i]].spaceUsed == w
    ensures TiesOf(slots, list, w) == list
  {
    if list != [] {
      AllTie(slots, list[..|list| - 1], w);
    }
  }

  lemma Ties(n: nat, order: seq<nat>, i: nat)
    requires n <= 4 && Ranking(order, Sizes(Statuses(n, n + 1))) && i < n
    ensures |order| == n + 1 && InRange(order, n + 1) && InRange(order[i..], n + 1)
    ensures TiesOf(Statuses(n, n + 1), order[i..], 1) == order[i..n]
  {
    FreeLast(n, order);
    assert order[i..][..n - i] == order[i..n];
    AllTie(Statuses(n, n + 1), order[i..n], 1);
  }

  /** A scan for one victim that starts at an atomic slot ends there. */
  lemma TakesFirst(s: seq<Slot>, ties: seq<nat>, hand: nat)
    requires InRange(ties, |s|) && hand < |ties| && s[ties[hand]].kind == AtomicSlot
    ensures InRange(Rotation(ties, hand), |s|) && Picked(s, Rotation(ties, hand), 1) == [ties[hand]]
    ensures HandAfter(s, ties, hand, 1) == hand + 1
  {
    FirstOne(s, Rotation(ties, hand));
    FirstOne(s, ties[hand..]);
  }

  lemma FirstOne(s: seq<Slot>, run: seq<nat>)
    requires InRange(run, |s|) && run != [] && s[run[0]].kind == AtomicSlot
    ensures Picked(s, run, 1) == [run[0]] && Visited(s, run, 1) == 1
  {
    assert run[..1][..0] == [] && run[..0] == [];
    assert Picked(s, run[..1], 1) == [run[0]];
    PickedFull(s, run, 1, 1);
    VisitedIs(s, run, 1, 1);
  }

  /** One slot wanted and one free: the circular algorithm refuses, and two are wanted. */
  lemma Waits(n: nat, order: seq<nat>, i: nat, h: Hunt)
    requires n <= 4 && Ranking(order, Sizes(Statuses(n, n + 1))) && i < n && h.need == 1
    requires InRange(h.ties, n + 1) && order[i] !in h.picked && |h.ties| + n - i > 1
    ensures InRange(order, n + 1) && InRange(h.ties + order[i..n], n + 1)
    ensures Turn(Statuses(n, n + 1), order, i, 1, n, h) == Hunt(h.picked, h.ties + order[i..n], 2, h.hand)
  {
    FreeLast(n, order);
    Ties(n, order, i);
    assert h.picked + [] == h.picked;
  }

  /** Two slots wanted and one free: the slot at the pointer goes, and one is still wanted. */
  lemma Takes(n: nat, order: seq<nat>, i: nat, h: Hunt)
    requires n <= 4 && Ranking(order, Sizes(Statuses(n, n + 1))) && i < n && h.need == 2
    requires InRange(h.ties, n + 1) && order[i] !in h.picked && |h.ties| + n - i > 1
    requires |order| == n + 1 && h.hand < |h.ties + order[i..n]|
    requires (h.ties + order[i..n])[h.hand] < n && (h.ties + order[i..n])[h.hand] !in h.picked
    ensures InRange(order, n + 1) && InRange(h.ties + order[i..n], n + 1)
    ensures Turn(Statuses(n, n + 1), order, i, 1, n, h)
         == Hunt(h.picked + [(h.ties + order[i..n])[h.hand]], h.ties + order[i..n], 1, h.hand + 1)
  {
    FreeLast(n, order);
    Ties(n, order, i);
    TakesFirst(Marked(Statuses(n, n + 1), h.picked), h.ties + order[i..n], h.hand);
  }

  /** A victim is passed over, and so is the free slot. */
  lemma Passes(n: nat, order: seq<nat>, i: nat, h: Hunt)
    requires n <= 4 && Ranking(order, Sizes(Statuses(n, n + 1))) && i < n + 1 && h.need > 0
    requires |order| == n + 1 && InRange(h.ties, n + 1) && (order[i] in h.picked || i == n)
    ensures InRange(order, n + 1) && Turn(Statuses(n, n + 1), order, i, 1, n, h) == h
  {
    FreeLast(n, order);
  }

  // ----- two for one -----

  /** Four values of one byte, one free slot, the pointer behind the last value: a value of two
      bytes lacks one slot, and BSU replaces two keys, whatever the order of the equals. */
  lemma TwoForOne(bytes: seq<Byte>, k: Key, v: Value, st: Status, after: State,
                  replaced: seq<Key>, picked: seq<nat>, order: seq<nat>)
    requires |bytes| == 5 && |v| == 2 && k !in KEYS && Singles(4, 5, bytes, 4).arena.Valid()
    requires SetSpec(BiggestSpaceUsed, Singles(4, 5, bytes, 4), k, v, [], st, after, replaced, picked, order)
    ensures Blocks(|v|, 1) - Singles(4, 5, bytes, 4).arena.Left() == 1 && |replaced| == 2
  {
    hide SetSpec;
    hide HuntFrom;
    hide Ranking;
    hide Statuses;
    UnitSlots(2);
    Taken(4);
    WhatGoes(4, 5, bytes, 4, k, v, st, after, replaced, picked, order);
    hide Bsu;
    BsuStarts(Statuses(4, 5), order, 2, 4, 4);
    FourTurns(order);
  }

  lemma BsuStarts(s: seq<Slot>, order: seq<nat>, needed: nat, atomics: nat, hand: nat)
    requires InRange(order, |s|) && CanEvict(needed, 1, atomics)
    ensures Bsu(s, order, needed, 1, atomics, hand)
         == HuntFrom(s, order, 0, 1, atomics, Hunt([], [], needed - 1, hand))
  {
  }

  lemma FourTurns(order: seq<nat>)
    requires Ranking(order, Sizes(Statuses(4, 5)))
    ensures InRange(order, 5) && |HuntFrom(Statuses(4, 5), order, 0, 1, 4, Hunt([], [], 1, 4)).picked| == 2
  {
    hide Turn;
    hide HuntFrom;
    hide Ranking;
    hide Statuses;
    FreeLast(4, order);
    var s, h0 := Statuses(4, 5), Hunt([], [], 1, 4);
    Waits(4, order, 0, h0);
    var h1 := Hunt([], order[..4], 2, 4);
    assert h0.ties + order[0..4] == h1.ties;
    Takes(4, order, 1, h1);
    var ties2 := order[..4] + order[1..4];
    var h2 := Hunt([order[1]], ties2, 1, 5);
    assert ties2[4] == order[1] && [] + [order[1]] == [order[1]];
    Waits(4, order, 2, h2);
    var ties3 := ties2 + order[2..4];
    var h3 := Hunt([order[1]], ties3, 2, 5);
    assert (ties3 + order[3..4])[5] == order[2];
    Takes(4, order, 3, h3);
    var h4 := Hunt([order[1], order[2]], ties3 + order[3..4], 1, 6);
    assert [order[1]] + [order[2]] == [order[1], order[2]];
    Passes(4, order, 4, h4);
    OneTurn(s, order, 0, 4, h0);
    OneTurn(s, order, 1, 4, h1);
    OneTurn(s, order, 2, 4, h2);
    OneTurn(s, order, 3, 4, h3);
    OneTurn(s, order, 4, 4, h4);
    HuntEnds(s, order, 4, h4);
  }

  lemma OneTurn(s: seq<Slot>, order: seq<nat>, i: nat, n: nat, h: Hunt)
    requires i < |order| && InRange(order, |s|) && InRange(h.ties, |s|) && h.need > 0
    ensures HuntFrom(s, order, i, 1, n, h) == HuntFrom(s, order, i + 1, 1, n, Turn(s, order, i, 1, n, h))
  {
    hide Turn;
  }

  lemma HuntEnds(s: seq<Slot>, order: seq<nat>, n: nat, h: Hunt)
    requires InRange(order, |s|) && InRange(h.ties, |s|)
    ensures HuntFrom(s, order, |order|, 1, n, h) == h
  {
  }

  // ----- the pointer decides -----

  /** Three values of one byte and one free slot: a value of three bytes lacks two. From the first
      slot on BSU replaces two keys, from the second on only one. So no condition on the two
      tables alone says whether it replaces what is missing. */
  lemma PointerDecides(bytes: seq<Byte>, hand: nat, k: Key, v: Value, st: Status, after: State,
                       replaced: seq<Key>, picked: seq<nat>, order: seq<nat>)
    requires |bytes| == 4 && |v| == 3 && k !in KEYS && hand <= 1 && Singles(3, 4, bytes, hand).arena.Valid()
    requires SetSpec(BiggestSpaceUsed, Singles(3, 4, bytes, hand), k, v, [], st, after, replaced, picked, order)
    ensures Blocks(|v|, 1) - Singles(3, 4, bytes, hand).arena.Left() == 2
    ensures |replaced| == if hand == 0 then 2 else 1
  {
    hide SetSpec;
    hide HuntFrom;
    hide Ranking;
    hide Statuses;
    hide Blocks;
    hide Used;
    hide Table;
    hide Bsu;
    hide Attempt;
    hide Evicted;
    hide Visited;
    hide Picked;
    hide AtomicCount;
    UnitSlots(3);
    Taken(3);
    WhatGoes(3, 4, bytes, hand, k, v, st, after, replaced, picked, order);
    BsuStarts(Statuses(3, 4), order, 3, 3, hand);
    if hand == 0 {
      FromFirst(order);
    } else {
      FromSecond(order);
    }
  }

  lemma FromFirst(order: seq<nat>)
    requires Ranking(order, Sizes(Statuses(3, 4)))
    ensures InRange(order, 4) && |HuntFrom(Statuses(3, 4), order, 0, 1, 3, Hunt([], [], 2, 0)).picked| == 2
  {
    hide Turn;
    hide HuntFrom;
    hide Ranking;
    hide Statuses;
    FreeLast(3, order);
    var s, h0 := Statuses(3, 4), Hunt([], [], 2, 0);
    assert [] + order[0..3] == order[..3] && [] + [order[0]] == [order[0]];
    Takes(3, order, 0, h0);
    var h1 := Hunt([order[0]], order[..3], 1, 1);
    Waits(3, order, 1, h1);
    var ties2 := order[..3] + order[1..3];
    var h2 := Hunt([order[0]], ties2, 2, 1);
    assert order[2..3] == [order[2]] && (ties2 + order[2..3])[1] == order[1];
    assert [order[0]] + [order[1]] == [order[0], order[1]];
    Takes(3, order, 2, h2);
    var h3 := Hunt([order[0], order[1]], ties2 + order[2..3], 1, 2);
    Passes(3, order, 3, h3);
    OneTurn(s, order, 0, 3, h0);
    OneTurn(s, order, 1, 3, h1);
    OneTurn(s, order, 2, 3, h2);
    OneTurn(s, order, 3, 3, h3);
    HuntEnds(s, order, 3, h3);
  }

  lemma FromSecond(order: seq<nat>)
    requires Ranking(order, Sizes(Statuses(3, 4)))
    ensures InRange(order, 4) && |HuntFrom(Statuses(3, 4), order, 0, 1, 3, Hunt([], [], 2, 1)).picked| == 1
  {
    hide Turn;
    hide HuntFrom;
    hide Ranking;
    hide Statuses;
    FreeLast(3, order);
    var s, h0 := Statuses(3, 4), Hunt([], [], 2, 1);
    assert [] + order[0..3] == order[..3] && [] + [order[1]] == [order[1]];
    Takes(3, order, 0, h0);
    var h1 := Hunt([order[1]], order[..3], 1, 2);
    Passes(3, order, 1, h1);
    Waits(3, order, 2, h1);
    var h2 := Hunt([order[1]], order[..3] + order[2..3], 2, 2);
    Passes(3, order, 3, h2);
    OneTurn(s, order, 0, 3, h0);
    OneTurn(s, order, 1, 3, h1);
    OneTurn(s, order, 2, 3, h1);
    OneTurn(s, order, 3, 3, h2);
    HuntEnds(s, order, 3, h2);
  }
}
