/** What a SET does to the entry table and to the bytes of the storage, as a function of
    the state before, and the key-to-value map that table and bytes stand for. */
module Storage {
  import opened EntryTable

  newtype Byte = x: int | 0 <= x < 256

  type Value = seq<Byte>

  datatype Option<T> = None | Some(value: T)

  function KeySet(ks: seq<Key>): set<Key> {
    set k | k in ks
  }

  /** `status_ci`. */
  datatype Status = StatusOk | StatusCompact | StatusReplaced | StatusNoSpace | StatusError

  datatype Arena = Arena(total: nat, es: nat, table: seq<Entry>, bytes: seq<Byte>) {

    ghost predicate Valid() {
      es >= 1 && WellPlaced(table, es, total) && |bytes| == Offset(total, es)
    }

    /** `entries_left` of a consistent instance. */
    function Left(): int
      requires es >= 1
    {
      total - Used(table, es)
    }

    /** The value the arena holds for a key. */
    function Get(k: Key): Option<Value> {
      if Has(table, k) then Some(Stored(bytes, es, EntryOf(table, k))) else None
    }

    /** Table and bytes stand for the map `m`. */
    ghost predicate Represents(m: map<Key, Value>) {
      forall k :: Get(k) == if k in m then Some(m[k]) else None
    }
  }

  /** The bytes of an entry; nothing when the entry lies outside the storage. */
  function Stored(bytes: seq<Byte>, es: nat, e: Entry): Value {
    if 0 <= e.number && Offset(e.number, es) + e.size <= |bytes| then
      bytes[Offset(e.number, es)..Offset(e.number, es) + e.size]
    else []
  }

  lemma InsideBytes(e: Entry, es: nat, total: nat)
    requires es >= 1 && Inside(e, es, total)
    ensures Offset(e.number, es) + e.size <= Offset(End(e, es), es) <= Offset(total, es)
  {
    BlocksBounds(e.size, es);
    OffsetSum(e.number, Blocks(e.size, es), es);
    OffsetSum(End(e, es), total - End(e, es), es);
  }

  /** The byte test of `storage_set` is the slot test: it is what bounds growth in place. */
  lemma ByteLimitIsSlotLimit(p: nat, size: nat, es: nat, total: nat)
    requires es >= 1 && size >= 1
    ensures Offset(p, es) + size <= Offset(total, es) <==> p + Blocks(size, es) <= total
  {
    if p + Blocks(size, es) <= total {
      FitsInBytes(p, size, es, total);
    } else {
      FitsNotInBytes(p, size, es, total);
    }
  }

  lemma FitsInBytes(p: nat, size: nat, es: nat, total: nat)
    requires es >= 1 && size >= 1 && p + Blocks(size, es) <= total
    ensures Offset(p, es) + size <= Offset(total, es)
  {
    var b := Blocks(size, es);
    BlocksBounds(size, es);
    OffsetSum(p, b, es);
    OffsetSum(p + b, total - (p + b), es);
  }

  lemma FitsNotInBytes(p: nat, size: nat, es: nat, total: nat)
    requires es >= 1 && size >= 1 && p + Blocks(size, es) > total
    ensures Offset(p, es) + size > Offset(total, es)
  {
    var b := Blocks(size, es);
    BlocksBounds(size, es);
    OffsetSum(p, b - 1, es);
    OffsetSum(total, p + b - 1 - total, es);
  }

  function Write(bytes: seq<Byte>, off: nat, v: Value): (r: seq<Byte>)
    requires off + |v| <= |bytes|
    ensures |r| == |bytes|
  {
    bytes[..off] + v + bytes[off + |v|..]
  }

  lemma {:induction false} BlocksMonotone(a: nat, b: nat, es: nat)
    requires es >= 1 && a <= b
    ensures Blocks(a, es) <= Blocks(b, es)
  {
    if a > es {
      BlocksMonotone(a - es, b - es, es);
    }
  }

  // ----- one SET, once eviction is over -----

  /** The slots that a growing block would add are free; past the last slot counts as free. */
  ghost predicate Grows(t: seq<Entry>, es: nat, total: nat, e: Entry, n: nat)
    requires es >= 1
  {
    && n - Blocks(e.size, es) <= total - Used(t, es)
    && forall q :: End(e, es) <= q < e.number + n ==> !Occupied(t, es, q)
  }

  /** The slot that `entry_table_next_entry` chooses, -1 for none. */
  ghost function Spot(t: seq<Entry>, es: nat, total: nat, k: Key, size: nat): int
    requires es >= 1
  {
    var n := Blocks(size, es);
    if Has(t, k) && (size <= EntryOf(t, k).size || Grows(t, es, total, EntryOf(t, k), n)) then
      EntryOf(t, k).number
    else
      FirstFit(t, es, total, n)
  }

  /** What `entry_table_has_continous_entries` answers: the key is last or alone in the
      table, or the table without the key has a long enough free run. */
  ghost predicate Contiguous(t: seq<Entry>, es: nat, total: nat, k: Key, size: nat)
    requires es >= 1
  {
    || Remove(t, k) == []
    || IndexOf(t, k) == |t| - 1
    || FirstFit(Remove(t, k), es, total, Blocks(size, es)) >= 0
  }

  /** The outcome of `instance_set` from the contiguity test on. */
  ghost function Attempt(a: Arena, k: Key, v: Value): (Status, Arena)
    requires a.Valid() && |v| >= 1
  {
    var n, p := Blocks(|v|, a.es), Spot(a.table, a.es, a.total, k, |v|);
    if !Contiguous(a.table, a.es, a.total, k, |v|) then
      (StatusCompact, a.(table := Remove(a.table, k)))
    else if p < 0 || p + n > a.total then
      (StatusError, a)
    else
      ByteLimitIsSlotLimit(p, |v|, a.es, a.total);
      (StatusOk, a.(table := Put(a.table, k, |v|, p), bytes := Write(a.bytes, Offset(p, a.es), v)))
  }

  /** Slots of a block are free once its entry is gone. */
  lemma OwnBlockFree(t: seq<Entry>, es: nat, total: nat, k: Key, q: int)
    requires es >= 1 && WellPlaced(t, es, total) && Has(t, k)
    requires EntryOf(t, k).number <= q < End(EntryOf(t, k), es)
    ensures !Occupied(Remove(t, k), es, q)
  {
    var i, r := IndexOf(t, k), Remove(t, k);
    WithoutAt(t, i);
    forall j | 0 <= j < |r|
      ensures !(r[j].number <= q < End(r[j], es))
    {
      assert r[j] == t[if j < i then j else j + 1];
    }
  }

  /** Wherever a SET that succeeds puts a value - fresh, shrunk, grown in place or
      relocated - the block is a free run of the table without the key. */
  lemma SpotIsFree(t: seq<Entry>, es: nat, total: nat, k: Key, size: nat)
    requires es >= 1 && WellPlaced(t, es, total) && size >= 1
    requires Spot(t, es, total, k, size) >= 0
    requires Spot(t, es, total, k, size) + Blocks(size, es) <= total
    ensures FreeRun(Remove(t, k), es, total, Spot(t, es, total, k, size), Blocks(size, es))
  {
    var n, p := Blocks(size, es), Spot(t, es, total, k, size);
    RemoveWellPlaced(t, es, total, k);
    forall q | p <= q < p + n
      ensures !Occupied(Remove(t, k), es, q)
    {
      if Has(t, k) && p == EntryOf(t, k).number {
        var e := EntryOf(t, k);
        if size <= e.size {
          BlocksMonotone(size, e.size, es);
        }
        if q < End(e, es) {
          OwnBlockFree(t, es, total, k, q);
        }
      }
    }
  }

  // ----- the map -----

  lemma {:induction false} PurgeSound(t: seq<Entry>, es: nat, total: nat, ks: seq<Key>)
    requires es >= 1 && WellPlaced(t, es, total)
    ensures WellPlaced(Purge(t, ks), es, total)
    ensures forall e :: e in Purge(t, ks) <==> e in t && e.key !in ks
  {
    if ks != [] {
      var k, rest := ks[0], ks[1..];
      RemoveWellPlaced(t, es, total, k);
      RemoveElements(t, k);
      PurgeSound(Remove(t, k), es, total, rest);
      HeadOrTail(ks);
    }
  }

  lemma HeadOrTail(ks: seq<Key>)
    requires ks != []
    ensures forall k :: k in ks <==> k == ks[0] || k in ks[1..]
  {
    assert ks == [ks[0]] + ks[1..];
  }

  lemma KeyHasOneEntry(t: seq<Entry>, e: Entry)
    requires UniqueKeys(t) && e in t
    ensures Has(t, e.key) && EntryOf(t, e.key) == e
  {
    var i :| 0 <= i < |t| && t[i] == e;
    IndexOfUnique(t, i);
  }

  /** Dropping entries drops their keys and leaves the entries of the other keys. */
  lemma FewerAt(s: seq<Entry>, t: seq<Entry>, gone: seq<Key>, k: Key)
    requires UniqueKeys(s) && UniqueKeys(t)
    requires forall e :: e in t <==> e in s && e.key !in gone
    ensures Has(t, k) <==> Has(s, k) && k !in gone
    ensures Has(t, k) ==> EntryOf(t, k) == EntryOf(s, k)
  {
    if Has(t, k) {
      KeyHasOneEntry(s, EntryOf(t, k));
    } else if Has(s, k) && k !in gone {
      KeyHasOneEntry(t, EntryOf(s, k));
    }
  }

  /** Eviction drops exactly the replaced keys from the map. */
  lemma PurgeRefinesMap(a: Arena, ks: seq<Key>, m: map<Key, Value>)
    requires a.Valid() && a.Represents(m)
    ensures a.(table := Purge(a.table, ks)).Valid()
    ensures a.(table := Purge(a.table, ks)).Represents(m - KeySet(ks))
  {
    var b := a.(table := Purge(a.table, ks));
    PurgeSound(a.table, a.es, a.total, ks);
    forall k
      ensures b.Get(k) == if k in ks then None else a.Get(k)
    {
      FewerAt(a.table, b.table, ks, k);
    }
  }

  /** Bytes outside a block do not change when the block is written. */
  lemma WriteElsewhere(bytes: seq<Byte>, es: nat, off: nat, v: Value, e: Entry)
    requires 0 <= e.number && off + |v| <= |bytes| && Offset(e.number, es) + e.size <= |bytes|
    requires off + |v| <= Offset(e.number, es) || Offset(e.number, es) + e.size <= off
    ensures Stored(Write(bytes, off, v), es, e) == Stored(bytes, es, e)
  {
    SliceOutsideWrite(bytes, off, v, Offset(e.number, es), Offset(e.number, es) + e.size);
  }

  lemma BlocksApart(es: nat, p: nat, size: nat, e: Entry)
    requires es >= 1 && size >= 1 && e.size >= 1 && 0 <= e.number
    requires p + Blocks(size, es) <= e.number || End(e, es) <= p
    ensures Offset(p, es) + size <= Offset(e.number, es) || Offset(e.number, es) + e.size <= Offset(p, es)
  {
    if p + Blocks(size, es) <= e.number {
      ByteLimitIsSlotLimit(p, size, es, e.number);
    } else {
      ByteLimitIsSlotLimit(e.number, e.size, es, p);
    }
  }

  lemma SliceOutsideWrite(bytes: seq<Byte>, off: nat, v: Value, lo: nat, hi: nat)
    requires off + |v| <= |bytes| && lo <= hi <= |bytes|
    requires hi <= off || off + |v| <= lo
    ensures Write(bytes, off, v)[lo..hi] == bytes[lo..hi]
  {
  }

  lemma FreeRunAvoids(s: seq<Entry>, es: nat, total: nat, p: int, n: nat, e: Entry)
    requires es >= 1 && WellPlaced(s, es, total) && n >= 1 && FreeRun(s, es, total, p, n) && e in s
    ensures p + n <= e.number || End(e, es) <= p
  {
    RankSplits(s, es, total, p, n);
    var j :| 0 <= j < |s| && s[j] == e;
  }

  lemma PutLookup(t: seq<Entry>, k: Key, size: nat, p: int, j: Key)
    requires UniqueKeys(t)
    ensures Has(Put(t, k, size, p), j) <==> j == k || Has(t, j)
    ensures j == k ==> EntryOf(Put(t, k, size, p), j) == Entry(p, size, k)
    ensures j != k && Has(t, j) ==> EntryOf(Put(t, k, size, p), j) == EntryOf(t, j)
  {
    var s, e := Remove(t, k), Entry(p, size, k);
    RemoveElements(t, k);
    InsertElements(s, e);
    InsertUniqueKeys(s, e);
    if j == k {
      KeyHasOneEntry(Put(t, k, size, p), e);
    } else if Has(t, j) {
      KeyHasOneEntry(Put(t, k, size, p), EntryOf(t, j));
    } else if Has(Put(t, k, size, p), j) {
      KeyHasOneEntry(t, EntryOf(Put(t, k, size, p), j));
    }
  }

  /** Writing a value in a free run keeps the bytes of every other key. */
  lemma OthersKeepBytes(a: Arena, k: Key, v: Value, p: int, e: Entry)
    requires a.Valid() && |v| >= 1 && e in Remove(a.table, k)
    requires FreeRun(Remove(a.table, k), a.es, a.total, p, Blocks(|v|, a.es))
    ensures Offset(p, a.es) + |v| <= |a.bytes|
    ensures Stored(Write(a.bytes, Offset(p, a.es), v), a.es, e) == Stored(a.bytes, a.es, e)
  {
    RemoveWellPlaced(a.table, a.es, a.total, k);
    FreeRunAvoids(Remove(a.table, k), a.es, a.total, p, Blocks(|v|, a.es), e);
    ByteLimitIsSlotLimit(p, |v|, a.es, a.total);
    assert Inside(e, a.es, a.total);
    InsideBytes(e, a.es, a.total);
    BlocksApart(a.es, p, |v|, e);
    WriteElsewhere(a.bytes, a.es, Offset(p, a.es), v, e);
  }

  /** Putting a value in a free run changes the map at its key and nowhere else. */
  lemma PutGet(a: Arena, k: Key, v: Value, p: int, j: Key)
    requires a.Valid() && |v| >= 1
    requires FreeRun(Remove(a.table, k), a.es, a.total, p, Blocks(|v|, a.es))
    ensures Offset(p, a.es) + |v| <= |a.bytes|
    ensures var b := a.(table := Put(a.table, k, |v|, p), bytes := Write(a.bytes, Offset(p, a.es), v));
            b.Get(j) == if j == k then Some(v) else a.Get(j)
  {
    ByteLimitIsSlotLimit(p, |v|, a.es, a.total);
    PutLookup(a.table, k, |v|, p, j);
    if j != k && Has(a.table, j) {
      RemoveElements(a.table, k);
      OthersKeepBytes(a, k, v, p, EntryOf(a.table, j));
    }
  }

  lemma PutRefinesMap(a: Arena, k: Key, v: Value, p: int, m: map<Key, Value>)
    requires a.Valid() && |v| >= 1 && a.Represents(m)
    requires FreeRun(Remove(a.table, k), a.es, a.total, p, Blocks(|v|, a.es))
    ensures Offset(p, a.es) + |v| <= |a.bytes|
    ensures var b := a.(table := Put(a.table, k, |v|, p), bytes := Write(a.bytes, Offset(p, a.es), v));
            b.Valid() && b.Represents(m[k := v])
  {
    PutWellPlaced(a.table, a.es, a.total, k, |v|, p);
    ByteLimitIsSlotLimit(p, |v|, a.es, a.total);
    var b := a.(table := Put(a.table, k, |v|, p), bytes := Write(a.bytes, Offset(p, a.es), v));
    forall j
      ensures b.Get(j) == if j == k then Some(v) else a.Get(j)
    {
      PutGet(a, k, v, p, j);
    }
  }

  /** One SET refines one map update, whatever way the value is placed: StatusOk sets the
      key, StatusCompact drops it, StatusError changes nothing; the arena stays sound. */
  lemma AttemptRefinesMap(a: Arena, k: Key, v: Value, m: map<Key, Value>)
    requires a.Valid() && |v| >= 1 && a.Represents(m)
    ensures var (st, b) := Attempt(a, k, v);
            && b.Valid() && b.es == a.es && b.total == a.total
            && match st
               case StatusOk => b.Represents(m[k := v])
               case StatusCompact => b.Represents(m - {k})
               case _ => st == StatusError && b == a
  {
    var (st, b) := Attempt(a, k, v);
    if st == StatusOk {
      SpotIsFree(a.table, a.es, a.total, k, |v|);
      PutRefinesMap(a, k, v, Spot(a.table, a.es, a.total, k, |v|), m);
    } else if st == StatusCompact {
      PurgeRefinesMap(a, [k], m);
      assert Purge(a.table, [k]) == Remove(a.table, k);
      assert KeySet([k]) == {k};
    }
  }

  /** For a key that is not in the table, the contiguity test and the placement agree on
      every table but an empty one that the value is too long for. */
  lemma AbsentKeyAgrees(t: seq<Entry>, es: nat, total: nat, k: Key, size: nat)
    requires es >= 1 && WellPlaced(t, es, total) && size >= 1 && !Has(t, k)
    ensures Spot(t, es, total, k, size) == FirstFit(t, es, total, Blocks(size, es))
    ensures Contiguous(t, es, total, k, size) <==> Spot(t, es, total, k, size) >= 0 || t == []
    ensures t == [] && Blocks(size, es) <= total ==> Spot(t, es, total, k, size) == 0
    ensures Blocks(size, es) > total - Used(t, es) ==> Spot(t, es, total, k, size) == -1
  {
    var n := Blocks(size, es);
    if t == [] && n <= total {
      assert FreeRun(t, es, total, 0, n);
    }
    if FirstFit(t, es, total, n) >= 0 {
      FreeRunAtMostLeft(t, es, total, FirstFit(t, es, total, n), n);
    }
  }
}
