/** What a compaction leaves: every entry moved left to the sum of the block lengths
    before it, with its bytes; and why the loop that gets there never loses one. */
module Compaction {
  import opened EntryTable
  import opened Storage

  /** The table with no gap: each entry starts where the ones before it end. */
  function Packed(t: seq<Entry>, es: nat): (r: seq<Entry>)
    requires es >= 1
    ensures |r| == |t|
  {
    if t == [] then []
    else
      var front := t[..|t| - 1];
      Packed(front, es) + [t[|t| - 1].(number := Used(front, es))]
  }

  lemma {:induction false} PackedAt(t: seq<Entry>, es: nat, i: nat)
    requires es >= 1 && i < |t|
    ensures Packed(t, es)[i] == t[i].(number := Used(t[..i], es))
  {
    var front := t[..|t| - 1];
    if i < |t| - 1 {
      PackedAt(front, es, i);
      assert front[..i] == t[..i];
    }
  }

  lemma PackedEnd(t: seq<Entry>, es: nat, i: nat)
    requires es >= 1 && i < |t|
    ensures End(Packed(t, es)[i], es) == Used(t[..i + 1], es)
  {
    PackedAt(t, es, i);
    assert t[..i + 1][..i] == t[..i];
  }

  lemma {:induction false} UsedGrows(t: seq<Entry>, es: nat, i: nat, j: nat)
    requires es >= 1 && i <= j <= |t|
    ensures Used(t[..i], es) <= Used(t[..j], es)
    decreases j - i
  {
    if i < j {
      UsedGrows(t, es, i, j - 1);
      assert t[..j][..j - 1] == t[..j - 1];
    }
  }

  lemma PackedUsed(t: seq<Entry>, es: nat)
    requires es >= 1
    ensures Used(Packed(t, es), es) == Used(t, es)
  {
    if t != [] {
      var r := Packed(t, es);
      PackedUsed(t[..|t| - 1], es);
      assert r[..|r| - 1] == Packed(t[..|t| - 1], es);
    }
  }

  /** The table when the first `i` entries have been moved. */
  function Stage(t: seq<Entry>, es: nat, i: nat): (r: seq<Entry>)
    requires es >= 1 && i <= |t|
    ensures |r| == |t|
  {
    Packed(t, es)[..i] + t[i..]
  }

  lemma StageAt(t: seq<Entry>, es: nat, i: nat, j: nat)
    requires es >= 1 && i <= |t| && j < |t|
    ensures Stage(t, es, i)[j] == if j < i then t[j].(number := Used(t[..j], es)) else t[j]
  {
    PackedAt(t, es, j);
  }

  lemma StageDisjoint(t: seq<Entry>, es: nat, total: nat, i: nat)
    requires es >= 1 && WellPlaced(t, es, total) && i <= |t|
    ensures Disjoint(Stage(t, es, i), es)
  {
    var s := Stage(t, es, i);
    forall a, b | 0 <= a < b < |s|
      ensures End(s[a], es) <= s[b].number
    {
      StageAt(t, es, i, a);
      StageAt(t, es, i, b);
      if a < i {
        PackedEnd(t, es, a);
        UsedGrows(t, es, a + 1, b);
        PrefixPacked(t, es, total, b);
      }
    }
  }

  lemma StageWellPlaced(t: seq<Entry>, es: nat, total: nat, i: nat)
    requires es >= 1 && WellPlaced(t, es, total) && i <= |t|
    ensures WellPlaced(Stage(t, es, i), es, total)
  {
    var s := Stage(t, es, i);
    StageDisjoint(t, es, total, i);
    forall j | 0 <= j < |s|
      ensures Inside(s[j], es, total) && s[j].key == t[j].key
    {
      StageAt(t, es, i, j);
      PrefixPacked(t, es, total, j);
      assert t[j] in t;
    }
  }

  /** With entry i lifted out, the first free run it fits in starts where the moved entries end. */
  lemma StageFirstFit(t: seq<Entry>, es: nat, total: nat, i: nat)
    requires es >= 1 && WellPlaced(t, es, total) && i < |t|
    ensures FirstFit(Without(Stage(t, es, i), i), es, total, Blocks(t[i].size, es)) == Used(t[..i], es)
  {
    var n, p, s := Blocks(t[i].size, es), Used(t[..i], es), Without(Stage(t, es, i), i);
    WithoutAt(Stage(t, es, i), i);
    assert t[i] in t;
    PrefixPacked(t, es, total, i);
    forall q | 0 <= q < p + n
      ensures Occupied(s, es, q) <==> q < p
    {
      StageOccupied(t, es, total, i, q);
    }
    forall q | 0 <= q < p
      ensures !FreeRun(s, es, total, q, n)
    {
      assert Occupied(s, es, q);
    }
    FirstFitIs(s, es, total, n, p);
  }

  lemma StageOccupied(t: seq<Entry>, es: nat, total: nat, i: nat, q: nat)
    requires es >= 1 && WellPlaced(t, es, total) && i < |t|
    requires q < Used(t[..i], es) + Blocks(t[i].size, es)
    ensures Occupied(Without(Stage(t, es, i), i), es, q) <==> q < Used(t[..i], es)
  {
    var s := Without(Stage(t, es, i), i);
    WithoutAt(Stage(t, es, i), i);
    if q < Used(t[..i], es) {
      var j := Covering(t, es, i, q);
      StageAt(t, es, i, j);
      PackedEnd(t, es, j);
      PackedAt(t, es, j);
      assert s[j].number <= q < End(s[j], es);
    } else {
      forall j | 0 <= j < |s|
        ensures !(s[j].number <= q < End(s[j], es))
      {
        StageGap(t, es, total, i, j);
      }
    }
  }

  /** Between the moved entries and the ones still to move there is room for entry i. */
  lemma StageGap(t: seq<Entry>, es: nat, total: nat, i: nat, j: nat)
    requires es >= 1 && WellPlaced(t, es, total) && i < |t| && j < |t| - 1
    ensures var e, p := Without(Stage(t, es, i), i)[j], Used(t[..i], es);
            if j < i then End(e, es) <= p else p + Blocks(t[i].size, es) <= e.number
  {
    WithoutAt(Stage(t, es, i), i);
    StageAt(t, es, i, if j < i then j else j + 1);
    if j < i {
      PackedEnd(t, es, j);
      PackedAt(t, es, j);
      UsedGrows(t, es, j + 1, i);
    } else {
      PrefixPacked(t, es, total, i);
      assert End(t[i], es) <= t[j + 1].number;
    }
  }

  /** The packed entry that covers a slot before the packed end. */
  lemma {:induction false} Covering(t: seq<Entry>, es: nat, i: nat, q: nat) returns (j: nat)
    requires es >= 1 && i <= |t| && q < Used(t[..i], es)
    ensures j < i && Used(t[..j], es) <= q < Used(t[..j + 1], es)
  {
    assert t[..i][..i - 1] == t[..i - 1];
    if q < Used(t[..i - 1], es) {
      j := Covering(t, es, i - 1, q);
    } else {
      j := i - 1;
    }
  }

  /** One turn of the loop: delete entry i, place it by first fit, insert and sort. */
  lemma StageStep(t: seq<Entry>, es: nat, total: nat, i: nat)
    requires es >= 1 && WellPlaced(t, es, total) && i < |t|
    ensures Remove(Stage(t, es, i), t[i].key) == Without(Stage(t, es, i), i)
    ensures Put(Stage(t, es, i), t[i].key, t[i].size, Used(t[..i], es)) == Stage(t, es, i + 1)
  {
    var s, p := Stage(t, es, i), Used(t[..i], es);
    StageWellPlaced(t, es, total, i);
    IndexOfUnique(s, i);
    var w, e := Without(s, i), Entry(p, t[i].size, t[i].key);
    StageRank(t, es, total, i);
    PackedAt(t, es, i);
    assert w[..i] == Packed(t, es)[..i];
    assert w[i..] == t[i + 1..];
    assert Packed(t, es)[..i + 1] == Packed(t, es)[..i] + [e];
  }

  lemma StageRank(t: seq<Entry>, es: nat, total: nat, i: nat)
    requires es >= 1 && WellPlaced(t, es, total) && i < |t|
    ensures Rank(Without(Stage(t, es, i), i), Used(t[..i], es)) == i
  {
    var w, p := Without(Stage(t, es, i), i), Used(t[..i], es);
    WithoutAt(Stage(t, es, i), i);
    assert t[i] in t;
    forall j | 0 <= j < |w|
      ensures w[j].number <= p <==> j < i
    {
      StageGap(t, es, total, i, j);
    }
    var r := Rank(w, p);
    assert r < |w| ==> (w[r].number <= p <==> r < i);
    assert i < |w| ==> (w[i].number <= p <==> i < i);
  }

  // ----- the bytes -----

  lemma MoveFits(t: seq<Entry>, es: nat, total: nat, i: nat)
    requires es >= 1 && WellPlaced(t, es, total) && i < |t|
    ensures Offset(Used(t[..i], es), es) + t[i].size <= Offset(total, es)
    ensures 0 <= t[i].number && Offset(t[i].number, es) + t[i].size <= Offset(total, es)
  {
    assert t[i] in t;
    PrefixPacked(t, es, total, i);
    InsideBytes(t[i], es, total);
    InsideBytes(t[i].(number := Used(t[..i], es)), es, total);
  }

  /** The bytes once the value of entry i is read at its old place and written at its new one. */
  ghost function Move(t: seq<Entry>, es: nat, total: nat, prev: seq<Byte>, i: nat): (r: seq<Byte>)
    requires es >= 1 && WellPlaced(t, es, total) && |prev| == Offset(total, es) && i < |t|
    ensures |r| == |prev|
  {
    MoveFits(t, es, total, i);
    Write(prev, Offset(Used(t[..i], es), es), Stored(prev, es, t[i]))
  }

  /** The bytes when the first `i` values have been moved, one after the other. */
  ghost function MovedBytes(t: seq<Entry>, es: nat, total: nat, bytes: seq<Byte>, i: nat): (r: seq<Byte>)
    requires es >= 1 && WellPlaced(t, es, total) && |bytes| == Offset(total, es) && i <= |t|
    ensures |r| == |bytes|
  {
    if i == 0 then bytes else Move(t, es, total, MovedBytes(t, es, total, bytes, i - 1), i - 1)
  }

  /** No move overwrites an entry that has not moved yet, nor one that has: after i moves
      the moved values are at their new places and the others at their old ones. */
  lemma {:induction false} MovesLoseNothing(t: seq<Entry>, es: nat, total: nat, bytes: seq<Byte>, i: nat, j: nat)
    requires es >= 1 && WellPlaced(t, es, total) && |bytes| == Offset(total, es) && i <= |t| && j < |t|
    ensures Stored(MovedBytes(t, es, total, bytes, i), es, Stage(t, es, i)[j]) == Stored(bytes, es, t[j])
  {
    hide Move;
    hide Stage;
    hide Stored;
    hide WellPlaced;
    if i == 0 {
      StageAt(t, es, 0, j);
    } else {
      MovesLoseNothing(t, es, total, bytes, i - 1, j);
      MoveStep(t, es, total, MovedBytes(t, es, total, bytes, i - 1), i - 1, j);
    }
  }

  /** One move keeps the value of every entry. */
  lemma MoveStep(t: seq<Entry>, es: nat, total: nat, prev: seq<Byte>, i: nat, j: nat)
    requires es >= 1 && WellPlaced(t, es, total) && |prev| == Offset(total, es) && i < |t| && j < |t|
    ensures Stored(Move(t, es, total, prev, i), es, Stage(t, es, i + 1)[j])
         == Stored(prev, es, Stage(t, es, i)[j])
  {
    if j == i {
      MovedItself(t, es, total, prev, i);
    } else {
      OthersStay(t, es, total, prev, i, j);
    }
  }

  lemma MovedItself(t: seq<Entry>, es: nat, total: nat, prev: seq<Byte>, i: nat)
    requires es >= 1 && WellPlaced(t, es, total) && |prev| == Offset(total, es) && i < |t|
    ensures Stored(Move(t, es, total, prev, i), es, Stage(t, es, i + 1)[i]) == Stored(prev, es, Stage(t, es, i)[i])
  {
    MoveFits(t, es, total, i);
    StageAt(t, es, i, i);
    StageAt(t, es, i + 1, i);
    ReadBack(prev, Offset(Used(t[..i], es), es), Stored(prev, es, t[i]));
  }

  lemma OthersStay(t: seq<Entry>, es: nat, total: nat, prev: seq<Byte>, i: nat, j: nat)
    requires es >= 1 && WellPlaced(t, es, total) && |prev| == Offset(total, es) && i < |t| && j < |t| && j != i
    ensures Stored(Move(t, es, total, prev, i), es, Stage(t, es, i + 1)[j]) == Stored(prev, es, Stage(t, es, i)[j])
  {
    MoveFits(t, es, total, i);
    StageAt(t, es, i, j);
    StageAt(t, es, i + 1, j);
    MoveApart(t, es, total, i, j);
    StageInBytes(t, es, total, i, j);
    WriteElsewhere(prev, es, Offset(Used(t[..i], es), es), Stored(prev, es, t[i]), Stage(t, es, i)[j]);
  }

  lemma StageInBytes(t: seq<Entry>, es: nat, total: nat, i: nat, j: nat)
    requires es >= 1 && WellPlaced(t, es, total) && i <= |t| && j < |t|
    ensures 0 <= Stage(t, es, i)[j].number
    ensures Offset(Stage(t, es, i)[j].number, es) + t[j].size <= Offset(total, es)
  {
    StageAt(t, es, i, j);
    MoveFits(t, es, total, j);
  }

  lemma ReadBack(bytes: seq<Byte>, off: nat, v: Value)
    requires off + |v| <= |bytes|
    ensures Write(bytes, off, v)[off..off + |v|] == v
  {
  }

  /** The new place of entry i misses every other entry, moved or not. */
  lemma MoveApart(t: seq<Entry>, es: nat, total: nat, i: nat, j: nat)
    requires es >= 1 && WellPlaced(t, es, total) && i < |t| && j < |t| && i != j
    ensures var e, off := Stage(t, es, i)[j], Offset(Used(t[..i], es), es);
            0 <= e.number && (off + t[i].size <= Offset(e.number, es) || Offset(e.number, es) + e.size <= off)
  {
    var e := Stage(t, es, i)[j];
    StageAt(t, es, i, j);
    assert t[i] in t && t[j] in t;
    PrefixPacked(t, es, total, i);
    if j < i {
      PackedEnd(t, es, j);
      PackedAt(t, es, j);
      UsedGrows(t, es, j + 1, i);
    } else {
      assert End(t[i], es) <= t[j].number;
    }
    BlocksApart(es, Used(t[..i], es), t[i].size, e);
  }

  // ----- the whole compaction -----

  ghost function Compacted(a: Arena): Arena
    requires a.Valid()
  {
    a.(table := Packed(a.table, a.es), bytes := MovedBytes(a.table, a.es, a.total, a.bytes, |a.table|))
  }

  lemma CompactionSound(a: Arena)
    requires a.Valid()
    ensures Compacted(a).Valid() && Compacted(a).Left() == a.Left()
    ensures Compacted(a).table == Stage(a.table, a.es, |a.table|)
  {
    assert Packed(a.table, a.es) == Stage(a.table, a.es, |a.table|);
    StageWellPlaced(a.table, a.es, a.total, |a.table|);
    PackedUsed(a.table, a.es);
  }

  /** A compaction keeps the map and the free space, and stays sound. */
  lemma CompactionKeepsMap(a: Arena, m: map<Key, Value>)
    requires a.Valid() && a.Represents(m)
    ensures Compacted(a).Valid() && Compacted(a).Represents(m)
    ensures Compacted(a).Left() == a.Left()
  {
    var b := Compacted(a);
    CompactionSound(a);
    forall k
      ensures b.Get(k) == a.Get(k)
    {
      PackedLookup(a.table, a.es, k);
      if Has(a.table, k) {
        var i := IndexOf(a.table, k);
        MovesLoseNothing(a.table, a.es, a.total, a.bytes, |a.table|, i);
        assert Stage(a.table, a.es, |a.table|)[i] == EntryOf(b.table, k);
      }
    }
  }

  /** Keys stay in the same order, at the same index, with the same size. */
  lemma PackedLookup(t: seq<Entry>, es: nat, k: Key)
    requires es >= 1 && UniqueKeys(t)
    ensures IndexOf(Packed(t, es), k) == IndexOf(t, k)
  {
    var i, r := IndexOf(t, k), Packed(t, es);
    forall j | 0 <= j < |t|
      ensures r[j].key == t[j].key
    {
      PackedAt(t, es, j);
    }
    if i >= 0 {
      IndexOfUnique(r, i);
    }
  }

  /** All the free slots form one run at the end. */
  lemma FreeSlotsLast(t: seq<Entry>, es: nat, total: nat, q: int)
    requires es >= 1 && WellPlaced(t, es, total)
    ensures Occupied(Packed(t, es), es, q) <==> 0 <= q < Used(t, es)
  {
    var r := Packed(t, es);
    assert t[..|t|] == t;
    if 0 <= q < Used(t, es) {
      var j := Covering(t, es, |t|, q);
      PackedAt(t, es, j);
      PackedEnd(t, es, j);
      assert r[j].number <= q < End(r[j], es);
    }
    forall j | 0 <= j < |r| && r[j].number <= q < End(r[j], es)
      ensures 0 <= q < Used(t, es)
    {
      PackedAt(t, es, j);
      PackedEnd(t, es, j);
      UsedGrows(t, es, j + 1, |t|);
    }
  }

  lemma {:induction false} PackedTwice(t: seq<Entry>, es: nat)
    requires es >= 1
    ensures Packed(Packed(t, es), es) == Packed(t, es)
  {
    if t != [] {
      var r, front := Packed(t, es), t[..|t| - 1];
      PackedTwice(front, es);
      PackedUsed(front, es);
      assert r[..|r| - 1] == Packed(front, es);
    }
  }

  lemma {:induction false} PackedMovesNothing(t: seq<Entry>, es: nat, total: nat, bytes: seq<Byte>, i: nat)
    requires es >= 1 && WellPlaced(t, es, total) && |bytes| == Offset(total, es) && i <= |t|
    requires Packed(t, es) == t
    ensures MovedBytes(t, es, total, bytes, i) == bytes
  {
    if i > 0 {
      PackedMovesNothing(t, es, total, bytes, i - 1);
      PackedStays(t, es, total, bytes, i - 1);
    }
  }

  lemma PackedStays(t: seq<Entry>, es: nat, total: nat, bytes: seq<Byte>, i: nat)
    requires es >= 1 && WellPlaced(t, es, total) && |bytes| == Offset(total, es) && i < |t|
    requires Packed(t, es) == t
    ensures Move(t, es, total, bytes, i) == bytes
  {
    PackedAt(t, es, i);
    MoveFits(t, es, total, i);
    WriteSame(bytes, Offset(t[i].number, es), t[i].size);
  }

  lemma WriteSame(bytes: seq<Byte>, off: nat, n: nat)
    requires off + n <= |bytes|
    ensures Write(bytes, off, bytes[off..off + n]) == bytes
  {
  }

  /** Compacting twice is compacting once, down to the last byte. */
  lemma CompactionIdempotent(a: Arena)
    requires a.Valid()
    ensures Compacted(a).Valid() && Compacted(Compacted(a)) == Compacted(a)
  {
    var b := Compacted(a);
    CompactionSound(a);
    PackedTwice(a.table, a.es);
    PackedMovesNothing(b.table, b.es, b.total, b.bytes, |b.table|);
  }
}
