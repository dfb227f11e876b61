/** The searches over the entry table, as the loops the Instancia runs. */
module Search {
  import opened EntryTable
  import opened Storage

  /** `entry_table_get_entry`. */
  method GetEntry(t: seq<Entry>, k: Key) returns (r: Option<Entry>)
    ensures r == if Has(t, k) then Some(EntryOf(t, k)) else None
  {
    var i := 0;
    while i < |t|
      invariant 0 <= i <= |t|
      invariant forall j :: 0 <= j < i ==> t[j].key != k
    {
      if t[i].key == k {
        return Some(t[i]);
      }
      i := i + 1;
    }
    return None;
  }

  /** `entry_table_get_entry_by_entry_number`, asked only whether there is one. */
  method StartsAt(t: seq<Entry>, n: int) returns (b: bool)
    ensures b <==> exists j :: 0 <= j < |t| && t[j].number == n
  {
    for i := 0 to |t|
      invariant forall j :: 0 <= j < i ==> t[j].number != n
    {
      if t[i].number == n {
        return true;
      }
    }
    return false;
  }

  /** A run that starts at or after the end of entry i cannot start before the end of the
      next one when the gap between them is too short. */
  lemma GapTooShort(t: seq<Entry>, es: nat, total: nat, n: nat, i: nat, q: int)
    requires es >= 1 && WellPlaced(t, es, total) && n >= 1 && i < |t|
    requires FreeRun(t, es, total, q, n) && t[i].number < q + n
    ensures End(t[i], es) <= q
  {
    assert t[i] in t;
    if q < End(t[i], es) {
      var x := if q <= t[i].number then t[i].number else q;
      assert t[i].number <= x < End(t[i], es);
      assert Occupied(t, es, x);
      assert false;
    }
  }

  lemma GapIsFree(t: seq<Entry>, es: nat, total: nat, n: nat, i: nat)
    requires es >= 1 && WellPlaced(t, es, total) && i <= |t|
    requires var p := if i == 0 then 0 else End(t[i - 1], es);
             p + n <= if i < |t| then t[i].number else total
    ensures FreeRun(t, es, total, if i == 0 then 0 else End(t[i - 1], es), n)
  {
    var p := if i == 0 then 0 else End(t[i - 1], es);
    assert i > 0 ==> t[i - 1] in t;
    assert i < |t| ==> t[i] in t;
    forall q | p <= q < p + n
      ensures !Occupied(t, es, q)
    {
      forall j | 0 <= j < |t|
        ensures !(t[j].number <= q < End(t[j], es))
      {
        assert j < i - 1 ==> End(t[j], es) <= t[i - 1].number;
        assert j > i ==> End(t[i], es) <= t[j].number;
      }
    }
  }

  /** The scan over the gaps before, between and after the entries finds the first fit. */
  method GapScan(t: seq<Entry>, es: nat, total: nat, n: nat) returns (p: int)
    requires es >= 1 && WellPlaced(t, es, total) && t != [] && n >= 1
    ensures p == FirstFit(t, es, total, n)
  {
    if t[0].number > 0 {
      if t[0].number >= n {
        GapIsFree(t, es, total, n, 0);
        FirstFitIs(t, es, total, n, 0);
        return 0;
      }
    }
    forall q | FreeRun(t, es, total, q, n)
      ensures End(t[0], es) <= q
    {
      assert t[0] in t;
      GapTooShort(t, es, total, n, 0, q);
    }
    var i := 0;
    while i + 1 < |t|
      invariant 0 <= i < |t|
      invariant forall q :: FreeRun(t, es, total, q, n) ==> End(t[i], es) <= q
    {
      var end := t[i].number + ReqEntries(t[i].size, es);
      var between := t[i + 1].number - end;
      if between >= n {
        assert t[i] in t;
        GapIsFree(t, es, total, n, i + 1);
        FirstFitIs(t, es, total, n, end);
        return end;
      }
      forall q | FreeRun(t, es, total, q, n)
        ensures End(t[i + 1], es) <= q
      {
        GapTooShort(t, es, total, n, i + 1, q);
      }
      i := i + 1;
    }
    var last := t[|t| - 1];
    var end := last.number + ReqEntries(last.size, es);
    assert last in t;
    if total - end >= n {
      GapIsFree(t, es, total, n, |t|);
      FirstFitIs(t, es, total, n, end);
      return end;
    }
    FirstFitIs(t, es, total, n, -1);
    return -1;
  }

  /** After an entry, scanning only the starts of entries finds every occupied slot. */
  lemma StartsSuffice(t: seq<Entry>, es: nat, total: nat, i: nat, n: nat)
    requires es >= 1 && WellPlaced(t, es, total) && i < |t|
    ensures NoneOccupied(t, es, End(t[i], es), n) <==> NoneStarts(t, End(t[i], es), n)
  {
    var lo := End(t[i], es);
    if NoneStarts(t, lo, n) {
      forall q | lo <= q < lo + n
        ensures !Occupied(t, es, q)
      {
        OccupiedAfterStart(t, es, total, i, n, q);
      }
    }
    if NoneOccupied(t, es, lo, n) {
      forall j | 0 <= j < |t|
        ensures !(lo <= t[j].number < lo + n)
      {
        StartOccupied(t, es, total, j);
      }
    }
  }

  ghost predicate NoneOccupied(t: seq<Entry>, es: nat, lo: int, n: nat)
    requires es >= 1
  {
    forall q :: lo <= q < lo + n ==> !Occupied(t, es, q)
  }

  ghost predicate NoneStarts(t: seq<Entry>, lo: int, n: nat) {
    forall j :: 0 <= j < |t| ==> !(lo <= t[j].number < lo + n)
  }

  lemma StartOccupied(t: seq<Entry>, es: nat, total: nat, j: nat)
    requires es >= 1 && WellPlaced(t, es, total) && j < |t|
    ensures Occupied(t, es, t[j].number)
  {
    var e := t[j];
    assert e in t;
    assert e.number < End(e, es);
  }

  lemma OccupiedAfterStart(t: seq<Entry>, es: nat, total: nat, i: nat, n: nat, q: int)
    requires es >= 1 && WellPlaced(t, es, total) && i < |t|
    requires NoneStarts(t, End(t[i], es), n)
    requires End(t[i], es) <= q < End(t[i], es) + n
    ensures !Occupied(t, es, q)
  {
    assert t[i] in t;
    forall j | 0 <= j < |t|
      ensures !(t[j].number <= q < End(t[j], es))
    {
      assert j < i ==> End(t[j], es) <= t[i].number;
      assert j > i ==> End(t[i], es) <= t[j].number;
    }
  }

  /** The slots after entry i that a growing value would take: none of them starts an entry. */
  method RoomToGrow(t: seq<Entry>, es: nat, total: nat, i: nat, extra: nat) returns (b: bool)
    requires es >= 1 && WellPlaced(t, es, total) && i < |t|
    ensures b <==> NoneOccupied(t, es, End(t[i], es), extra)
  {
    StartsSuffice(t, es, total, i, extra);
    var number := t[i].number + ReqEntries(t[i].size, es);
    var m := 0;
    var taken := StartsAt(t, number + m);
    while !taken && m < extra
      invariant 0 <= m <= extra
      invariant NoneStarts(t, number, m)
      invariant taken <==> exists j :: 0 <= j < |t| && t[j].number == number + m
      decreases extra - m
    {
      m := m + 1;
      taken := StartsAt(t, number + m);
    }
    b := m == extra;
  }

  /** `entry_table_next_entry`. */
  method NextEntry(t: seq<Entry>, es: nat, total: nat, left: int, k: Key, size: nat) returns (p: int)
    requires es >= 1 && WellPlaced(t, es, total) && left == total - Used(t, es) && size >= 1
    ensures p == Spot(t, es, total, k, size)
  {
    var needed := ReqEntries(size, es);
    var prior := GetEntry(t, k);
    if prior.Some? {
      if size <= prior.value.size {
        return prior.value.number;
      }
      BlocksMonotone(prior.value.size, size, es);
      var extra := needed - ReqEntries(prior.value.size, es);
      if extra <= left {
        var room := RoomToGrow(t, es, total, IndexOf(t, k), extra);
        if room {
          return prior.value.number;
        }
      }
    }
    if needed <= left || prior.Some? {
      if |t| == 0 {
        assert FreeRun(t, es, total, 0, needed);
        FirstFitIs(t, es, total, needed, 0);
        return 0;
      }
      p := GapScan(t, es, total, needed);
    } else {
      AbsentKeyAgrees(t, es, total, k, size);
      p := -1;
    }
  }

  /** `entry_table_has_continous_entries`. */
  method HasContinuousEntries(t: seq<Entry>, es: nat, total: nat, k: Key, size: nat) returns (b: bool)
    requires es >= 1 && WellPlaced(t, es, total) && size >= 1
    ensures b <==> Contiguous(t, es, total, k, size)
  {
    var mock := Remove(t, k);
    RemoveWellPlaced(t, es, total, k);
    var current := GetEntry(t, k);
    if current.Some? {
      if mock == [] {
        return true;
      }
      var h, following := Following(t, es, total, k);
      if following.number < current.value.number && total - current.value.number + ReqEntries(size, es) != 0 {
        return true;
      }
      var diff := ReqEntries(size, es) - ReqEntries(current.value.size, es);
      if current.value.number + ReqEntries(current.value.size, es) + diff < following.number {
        RoomBeforeFollowing(t, es, total, k, size, h);
        return true;
      }
    }
    if mock == [] {
      return true;
    }
    var p := GapScan(mock, es, total, ReqEntries(size, es));
    b := p >= 0;
  }

  /** The entry after the one of key k in the table without k, or the last one before it. */
  method Following(t: seq<Entry>, es: nat, total: nat, k: Key) returns (h: nat, following: Entry)
    requires es >= 1 && WellPlaced(t, es, total) && Has(t, k) && Remove(t, k) != []
    ensures h < |Remove(t, k)| && following == Remove(t, k)[h]
    ensures following.number < EntryOf(t, k).number <==> IndexOf(t, k) == |t| - 1
    ensures following.number >= EntryOf(t, k).number ==> h == IndexOf(t, k)
  {
    var mock, current, c := Remove(t, k), EntryOf(t, k), IndexOf(t, k);
    BeforeAndAfter(t, es, total, c);
    h := 0;
    while mock[h].number < current.number && h + 1 < |mock|
      invariant h < |mock|
      invariant forall j :: 0 <= j < h ==> mock[j].number < current.number
      decreases |mock| - h
    {
      h := h + 1;
    }
    following := mock[h];
    assert mock == Without(t, c) && current == t[c];
    assert following.number < current.number <==> h < c;
    assert h > 0 ==> (mock[h - 1].number < current.number <==> h - 1 < c);
  }

  lemma BeforeAndAfter(t: seq<Entry>, es: nat, total: nat, c: nat)
    requires es >= 1 && WellPlaced(t, es, total) && c < |t|
    ensures forall j :: 0 <= j < |t| - 1 ==> (Without(t, c)[j].number < t[c].number <==> j < c)
  {
    WithoutAt(t, c);
    NumbersAscend(t, es, total);
  }

  lemma NumbersAscend(t: seq<Entry>, es: nat, total: nat)
    requires es >= 1 && WellPlaced(t, es, total)
    ensures forall i, j :: 0 <= i < j < |t| ==> t[i].number < t[j].number
  {
    assert forall i :: 0 <= i < |t| ==> t[i] in t;
    assert forall i, j :: 0 <= i < j < |t| ==> End(t[i], es) <= t[j].number;
  }

  lemma RoomBeforeFollowing(t: seq<Entry>, es: nat, total: nat, k: Key, size: nat, h: nat)
    requires es >= 1 && WellPlaced(t, es, total) && Has(t, k) && h == IndexOf(t, k) < |Remove(t, k)|
    requires size >= 1 && EntryOf(t, k).number + Blocks(size, es) < Remove(t, k)[h].number
    ensures FirstFit(Remove(t, k), es, total, Blocks(size, es)) >= 0
  {
    var mock, p := Remove(t, k), EntryOf(t, k).number;
    RemoveWellPlaced(t, es, total, k);
    WithoutAt(t, h);
    assert mock[h] in mock && EntryOf(t, k) in t;
    assert h > 0 ==> End(mock[h - 1], es) <= p;
    assert h > 0 ==> mock[h - 1] in mock;
    GapIsFree(mock, es, total, Blocks(size, es), h);
  }
}
