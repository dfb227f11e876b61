/** The entry table of an Instancia: which key owns which run of storage slots.

    A table is a sequence of entries sorted by slot number. This module says what a
    sound table is, what "first fit" means independently of how it is searched, and
    what inserting, removing and looking up an entry do to the table. */
module EntryTable {
  type Key = string

  datatype Entry = Entry(number: int, size: nat, key: Key)

  /** Number of slots of `es` bytes that `size` bytes take: the ceiling of size / es. */
  function Blocks(size: nat, es: nat): (b: nat)
    requires es >= 1
    ensures size >= 1 ==> b >= 1
  {
    if size == 0 then 0 else if size <= es then 1 else 1 + Blocks(size - es, es)
  }

  /** Byte offset of slot `n`: n * es, written as a sum so that proofs stay linear. */
  function Offset(n: nat, es: nat): nat {
    if n == 0 then 0 else Offset(n - 1, es) + es
  }

  lemma {:induction false} OffsetIsProduct(n: nat, es: nat)
    ensures Offset(n, es) == n * es
  {
    if n > 0 {
      OffsetIsProduct(n - 1, es);
      assert (n - 1) * es == n * es - es;
    }
  }

  lemma {:induction false} OffsetSum(m: nat, n: nat, es: nat)
    ensures Offset(m + n, es) == Offset(m, es) + Offset(n, es)
  {
    if n > 0 {
      OffsetSum(m, n - 1, es);
    }
  }

  lemma {:induction false} BlocksBounds(size: nat, es: nat)
    requires es >= 1 && size >= 1
    ensures Offset(Blocks(size, es) - 1, es) < size <= Offset(Blocks(size, es), es)
  {
    if size > es {
      BlocksBounds(size - es, es);
    }
  }

  /** `_req_entries`: the quotient, plus one when there is a remainder. */
  function ReqEntries(size: nat, es: nat): (r: nat)
    requires es >= 1
    ensures r == Blocks(size, es)
  {
    RoundedQuotient(size, es);
    if size % es == 0 then size / es else size / es + 1
  }

  lemma {:induction false} RoundedQuotient(size: nat, es: nat)
    requires es >= 1
    ensures Blocks(size, es) == if size % es == 0 then size / es else size / es + 1
  {
    if size > es {
      RoundedQuotient(size - es, es);
      SubtractDivisor(size, es);
    } else if size == es {
      QuotientUnique(size, es, 1, 0);
    } else {
      QuotientUnique(size, es, 0, size);
    }
  }

  lemma SubtractDivisor(size: nat, es: nat)
    requires 1 <= es <= size
    ensures size / es == (size - es) / es + 1 && size % es == (size - es) % es
  {
    var q, r := (size - es) / es, (size - es) % es;
    assert size == (q + 1) * es + r by {
      assert (q + 1) * es == q * es + es;
    }
    QuotientUnique(size, es, q + 1, r);
  }

  lemma QuotientUnique(x: nat, es: nat, q: nat, r: nat)
    requires es >= 1 && x == q * es + r && r < es
    ensures x / es == q && x % es == r
  {
    var d := x / es - q;
    assert x == (x / es) * es + x % es;
    assert d * es == (x / es) * es - q * es;
    assert d >= 1 ==> d * es >= es;
    assert d <= -1 ==> (-d) * es >= es;
  }

  /** In slots of one byte, a value takes as many slots as it has bytes. */
  lemma {:induction false} UnitSlots(n: nat)
    ensures Offset(n, 1) == n && Blocks(n, 1) == n
  {
    if n > 0 {
      UnitSlots(n - 1);
    }
  }

  lemma FewUnitSlots()
    ensures Blocks(1, 1) == 1 && Blocks(2, 1) == 2 && Blocks(3, 1) == 3 && Offset(5, 1) == 5
  {
    UnitSlots(2);
    UnitSlots(3);
    UnitSlots(5);
  }

  function End(e: Entry, es: nat): int
    requires es >= 1
  {
    e.number + Blocks(e.size, es)
  }

  /** The slots taken by a table. */
  function Used(t: seq<Entry>, es: nat): nat
    requires es >= 1
  {
    if t == [] then 0 else Used(t[..|t| - 1], es) + Blocks(t[|t| - 1].size, es)
  }

  ghost predicate Occupied(t: seq<Entry>, es: nat, q: int)
    requires es >= 1
  {
    exists j :: 0 <= j < |t| && t[j].number <= q < End(t[j], es)
  }

  /** Slots p, ..., p + n - 1 exist and are all free. */
  ghost predicate FreeRun(t: seq<Entry>, es: nat, total: nat, p: int, n: nat)
    requires es >= 1
  {
    0 <= p && p + n <= total && forall q :: p <= q < p + n ==> !Occupied(t, es, q)
  }

  /** A sound table: blocks inside the arena, sorted, disjoint, one entry per key. */
  ghost predicate WellPlaced(t: seq<Entry>, es: nat, total: nat)
    requires es >= 1
  {
    && (forall e :: e in t ==> Inside(e, es, total))
    && Disjoint(t, es)
    && UniqueKeys(t)
  }

  predicate Inside(e: Entry, es: nat, total: nat)
    requires es >= 1
  {
    e.size >= 1 && 0 <= e.number && End(e, es) <= total
  }

  ghost predicate Disjoint(t: seq<Entry>, es: nat)
    requires es >= 1
  {
    forall i, j :: 0 <= i < j < |t| ==> End(t[i], es) <= t[j].number
  }

  ghost predicate UniqueKeys(t: seq<Entry>) {
    forall i, j :: 0 <= i < j < |t| ==> t[i].key != t[j].key
  }

  ghost predicate Ascending(t: seq<Entry>) {
    forall i, j :: 0 <= i < j < |t| ==> t[i].number <= t[j].number
  }

  // ----- looking a key up -----

  /** The scan of `entry_table_get_entry`: the first entry with the key, -1 when there is none. */
  function IndexOf(t: seq<Entry>, k: Key): (i: int)
    ensures -1 <= i < |t|
    ensures i >= 0 ==> t[i].key == k
    ensures forall j :: 0 <= j < (if i < 0 then |t| else i) ==> t[j].key != k
  {
    if t == [] then -1
    else if t[0].key == k then 0
    else
      var r := IndexOf(t[1..], k);
      assert forall j :: 1 <= j < |t| ==> t[j] == t[1..][j - 1];
      if r < 0 then -1 else r + 1
  }

  predicate Has(t: seq<Entry>, k: Key) {
    IndexOf(t, k) >= 0
  }

  function EntryOf(t: seq<Entry>, k: Key): (e: Entry)
    requires Has(t, k)
    ensures e in t && e.key == k
  {
    t[IndexOf(t, k)]
  }

  lemma IndexOfUnique(t: seq<Entry>, i: nat)
    requires UniqueKeys(t) && i < |t|
    ensures IndexOf(t, t[i].key) == i
  {
    var j := IndexOf(t, t[i].key);
    assert j >= 0;
  }

  // ----- removing -----

  function Without(t: seq<Entry>, i: nat): (r: seq<Entry>)
    requires i < |t|
    ensures |r| == |t| - 1
  {
    t[..i] + t[i + 1..]
  }

  function Remove(t: seq<Entry>, k: Key): seq<Entry> {
    if Has(t, k) then Without(t, IndexOf(t, k)) else t
  }

  /** The table after `entry_table_delete_few`. */
  function Purge(t: seq<Entry>, ks: seq<Key>): seq<Entry> {
    if ks == [] then t else Purge(Remove(t, ks[0]), ks[1..])
  }

  lemma WithoutAt(t: seq<Entry>, i: nat)
    requires i < |t|
    ensures forall j :: 0 <= j < |t| - 1 ==> Without(t, i)[j] == t[if j < i then j else j + 1]
  {
  }

  lemma WithoutElements(t: seq<Entry>, i: nat)
    requires UniqueKeys(t) && i < |t|
    ensures forall e :: e in Without(t, i) <==> e in t && e.key != t[i].key
    ensures UniqueKeys(Without(t, i))
  {
    var r := Without(t, i);
    forall e | e in t && e.key != t[i].key
      ensures e in r
    {
      var j :| 0 <= j < |t| && t[j] == e;
      assert r[if j < i then j else j - 1] == e;
    }
  }

  lemma RemoveElements(t: seq<Entry>, k: Key)
    requires UniqueKeys(t)
    ensures forall e :: e in Remove(t, k) <==> e in t && e.key != k
    ensures UniqueKeys(Remove(t, k)) && !Has(Remove(t, k), k)
  {
    if Has(t, k) {
      WithoutElements(t, IndexOf(t, k));
      assert Has(Remove(t, k), k) ==> EntryOf(Remove(t, k), k) in Remove(t, k);
    }
  }

  lemma RemoveWellPlaced(t: seq<Entry>, es: nat, total: nat, k: Key)
    requires es >= 1 && WellPlaced(t, es, total)
    ensures WellPlaced(Remove(t, k), es, total)
    ensures Used(Remove(t, k), es) == Used(t, es) - (if Has(t, k) then Blocks(EntryOf(t, k).size, es) else 0)
    ensures forall q :: Occupied(Remove(t, k), es, q) ==> Occupied(t, es, q)
  {
    if Has(t, k) {
      var i := IndexOf(t, k);
      UsedWithout(t, es, i);
      WithoutWellPlaced(t, es, total, i);
    }
  }

  lemma WithoutDisjoint(t: seq<Entry>, es: nat, i: nat)
    requires es >= 1 && Disjoint(t, es) && i < |t|
    ensures Disjoint(Without(t, i), es)
  {
    WithoutAt(t, i);
  }

  lemma WithoutWellPlaced(t: seq<Entry>, es: nat, total: nat, i: nat)
    requires es >= 1 && WellPlaced(t, es, total) && i < |t|
    ensures WellPlaced(Without(t, i), es, total)
    ensures forall q :: Occupied(Without(t, i), es, q) ==> Occupied(t, es, q)
  {
    var r := Without(t, i);
    WithoutElements(t, i);
    WithoutDisjoint(t, es, i);
    forall q | Occupied(r, es, q)
      ensures Occupied(t, es, q)
    {
      var j :| 0 <= j < |r| && r[j].number <= q < End(r[j], es);
      assert r[j] in t;
    }
  }

  lemma {:induction false} UsedConcat(a: seq<Entry>, b: seq<Entry>, es: nat)
    requires es >= 1
    ensures Used(a + b, es) == Used(a, es) + Used(b, es)
  {
    if b == [] {
      assert a + b == a;
    } else {
      assert (a + b)[..|a + b| - 1] == a + b[..|b| - 1];
      UsedConcat(a, b[..|b| - 1], es);
    }
  }

  lemma UsedWithout(t: seq<Entry>, es: nat, i: nat)
    requires es >= 1 && i < |t|
    ensures Used(Without(t, i), es) == Used(t, es) - Blocks(t[i].size, es)
  {
    assert t == t[..i] + [t[i]] + t[i + 1..];
    UsedConcat(t[..i] + [t[i]], t[i + 1..], es);
    UsedConcat(t[..i], [t[i]], es);
    UsedConcat(t[..i], t[i + 1..], es);
    UsedSingle(t[i], es);
  }

  // ----- inserting -----

  function Rank(t: seq<Entry>, n: int): (r: nat)
    ensures r <= |t|
    ensures forall j :: 0 <= j < r ==> t[j].number <= n
    ensures r < |t| ==> t[r].number > n
  {
    if t == [] || t[0].number > n then 0
    else
      var r := 1 + Rank(t[1..], n);
      assert forall j :: 1 <= j < |t| ==> t[j] == t[1..][j - 1];
      r
  }

  function InsertSorted(t: seq<Entry>, e: Entry): seq<Entry> {
    var r := Rank(t, e.number);
    t[..r] + [e] + t[r..]
  }

  /** The table once key `k` is the owner of the block of `size` bytes that starts at slot `p`. */
  function Put(t: seq<Entry>, k: Key, size: nat, p: int): seq<Entry> {
    InsertSorted(Remove(t, k), Entry(p, size, k))
  }

  lemma InsertElements(t: seq<Entry>, e: Entry)
    ensures forall x :: x in InsertSorted(t, e) <==> x in t || x == e
    ensures multiset(InsertSorted(t, e)) == multiset(t) + multiset{e}
  {
    var r := Rank(t, e.number);
    assert t == t[..r] + t[r..];
    InsertedIn(t[..r], e, t[r..]);
  }

  lemma InsertedIn(a: seq<Entry>, e: Entry, b: seq<Entry>)
    ensures forall x :: x in a + [e] + b <==> x in a + b || x == e
  {
  }

  lemma PutWellPlaced(t: seq<Entry>, es: nat, total: nat, k: Key, size: nat, p: int)
    requires es >= 1 && WellPlaced(t, es, total) && size >= 1
    requires FreeRun(Remove(t, k), es, total, p, Blocks(size, es))
    ensures WellPlaced(Put(t, k, size, p), es, total)
    ensures Used(Put(t, k, size, p), es) == Used(Remove(t, k), es) + Blocks(size, es)
  {
    RemoveElements(t, k);
    RemoveWellPlaced(t, es, total, k);
    InsertWellPlaced(Remove(t, k), es, total, Entry(p, size, k));
    InsertUsed(Remove(t, k), es, Entry(p, size, k));
  }

  lemma InsertUsed(s: seq<Entry>, es: nat, e: Entry)
    requires es >= 1
    ensures Used(InsertSorted(s, e), es) == Used(s, es) + Blocks(e.size, es)
  {
    var r := Rank(s, e.number);
    UsedSingle(e, es);
    UsedConcat(s[..r] + [e], s[r..], es);
    UsedConcat(s[..r], [e], es);
    UsedConcat(s[..r], s[r..], es);
    assert s == s[..r] + s[r..];
  }

  lemma UsedSingle(e: Entry, es: nat)
    requires es >= 1
    ensures Used([e], es) == Blocks(e.size, es)
  {
    assert [e][..0] == [];
  }

  lemma InsertWellPlaced(s: seq<Entry>, es: nat, total: nat, e: Entry)
    requires es >= 1 && WellPlaced(s, es, total) && e.size >= 1
    requires !Has(s, e.key) && FreeRun(s, es, total, e.number, Blocks(e.size, es))
    ensures WellPlaced(InsertSorted(s, e), es, total)
  {
    RankSplits(s, es, total, e.number, Blocks(e.size, es));
    InsertElements(s, e);
    InsertDisjoint(s, es, e);
    InsertUniqueKeys(s, e);
  }

  lemma InsertAt(s: seq<Entry>, e: Entry)
    ensures var r, u := Rank(s, e.number), InsertSorted(s, e);
            |u| == |s| + 1 && u[r] == e
            && (forall j :: 0 <= j < r ==> u[j] == s[j])
            && (forall j :: r < j < |u| ==> u[j] == s[j - 1])
  {
  }

  lemma InsertDisjoint(s: seq<Entry>, es: nat, e: Entry)
    requires es >= 1 && Disjoint(s, es)
    requires forall j :: 0 <= j < Rank(s, e.number) ==> End(s[j], es) <= e.number
    requires forall j :: Rank(s, e.number) <= j < |s| ==> End(e, es) <= s[j].number
    ensures Disjoint(InsertSorted(s, e), es)
  {
    InsertAt(s, e);
  }

  lemma InsertUniqueKeys(s: seq<Entry>, e: Entry)
    requires UniqueKeys(s) && !Has(s, e.key)
    ensures UniqueKeys(InsertSorted(s, e))
  {
    InsertAt(s, e);
  }

  /** The entries ranked before a free run end before it, the others start after it. */
  lemma RankSplits(s: seq<Entry>, es: nat, total: nat, p: int, n: nat)
    requires es >= 1 && WellPlaced(s, es, total) && n >= 1 && FreeRun(s, es, total, p, n)
    ensures forall j :: 0 <= j < Rank(s, p) ==> End(s[j], es) <= p
    ensures forall j :: Rank(s, p) <= j < |s| ==> p + n <= s[j].number
  {
    forall j | 0 <= j < Rank(s, p)
      ensures End(s[j], es) <= p
    {
      assert !Occupied(s, es, p);
    }
    forall j | Rank(s, p) <= j < |s|
      ensures p + n <= s[j].number
    {
      var r := Rank(s, p);
      assert s[r].number <= s[j].number;
      assert s[j] in s;
      assert s[j].number < End(s[j], es);
      assert Occupied(s, es, s[j].number);
    }
  }

  // ----- counting slots -----

  lemma {:induction false} PrefixPacked(t: seq<Entry>, es: nat, total: nat, i: nat)
    requires es >= 1 && WellPlaced(t, es, total) && i <= |t|
    ensures i < |t| ==> Used(t[..i], es) <= t[i].number
    ensures i > 0 ==> Used(t[..i], es) <= End(t[i - 1], es)
    ensures Used(t[..i], es) <= total
  {
    assert i < |t| ==> t[i] in t;
    if i > 0 {
      assert t[i - 1] in t;
      PrefixPacked(t, es, total, i - 1);
      assert t[..i][..i - 1] == t[..i - 1];
    }
  }

  lemma UsedAtMostTotal(t: seq<Entry>, es: nat, total: nat)
    requires es >= 1 && WellPlaced(t, es, total)
    ensures Used(t, es) <= total
  {
    PrefixPacked(t, es, total, |t|);
    assert t[..|t|] == t;
  }

  /** No free run is longer than the free space. */
  lemma FreeRunAtMostLeft(t: seq<Entry>, es: nat, total: nat, p: int, n: nat)
    requires es >= 1 && WellPlaced(t, es, total) && FreeRun(t, es, total, p, n)
    ensures n <= total - Used(t, es)
  {
    if n == 0 {
      UsedAtMostTotal(t, es, total);
    } else {
      RankSplits(t, es, total, p, n);
      var r := Rank(t, p);
      PrefixPacked(t, es, total, r);
      SuffixPacked(t, es, total, r);
      UsedSplit(t, es, r);
      assert r == 0 ==> Used(t[..r], es) == 0;
    }
  }

  lemma UsedSplit(t: seq<Entry>, es: nat, r: nat)
    requires es >= 1 && r <= |t|
    ensures Used(t, es) == Used(t[..r], es) + Used(t[r..], es)
  {
    UsedConcat(t[..r], t[r..], es);
    assert t == t[..r] + t[r..];
  }

  lemma {:induction false} SuffixPacked(t: seq<Entry>, es: nat, total: nat, i: nat)
    requires es >= 1 && WellPlaced(t, es, total) && i <= |t|
    ensures Used(t[i..], es) <= total - (if i < |t| then t[i].number else total)
    decreases |t| - i
  {
    if i < |t| {
      assert t[i] in t;
      SuffixPacked(t, es, total, i + 1);
      assert t[i..] == [t[i]] + t[i + 1..];
      UsedConcat([t[i]], t[i + 1..], es);
      UsedSingle(t[i], es);
    }
  }

  /** When a table leaves no slot, every slot is occupied. */
  lemma {:induction false} FullTableOccupies(t: seq<Entry>, es: nat, total: nat, q: int)
    requires es >= 1 && WellPlaced(t, es, total) && Used(t, es) == total && 0 <= q < total
    ensures Occupied(t, es, q)
  {
    if !Occupied(t, es, q) {
      assert FreeRun(t, es, total, q, 1);
      FreeRunAtMostLeft(t, es, total, q, 1);
    }
  }

  // ----- first fit -----

  /** The least slot at or after `p` where `n` slots in a row are free, -1 when there is none. */
  ghost function FirstFitFrom(t: seq<Entry>, es: nat, total: nat, n: nat, p: nat): (r: int)
    requires es >= 1
    ensures r == -1 || (p <= r && FreeRun(t, es, total, r, n))
    ensures forall q :: p <= q && (r == -1 || q < r) ==> !FreeRun(t, es, total, q, n)
    decreases total + 1 - p
  {
    if p + n > total then -1
    else if FreeRun(t, es, total, p, n) then p
    else FirstFitFrom(t, es, total, n, p + 1)
  }

  ghost function FirstFit(t: seq<Entry>, es: nat, total: nat, n: nat): (r: int)
    requires es >= 1
    ensures r == -1 || FreeRun(t, es, total, r, n)
    ensures forall q :: 0 <= q && (r == -1 || q < r) ==> !FreeRun(t, es, total, q, n)
  {
    FirstFitFrom(t, es, total, n, 0)
  }

  lemma FirstFitIs(t: seq<Entry>, es: nat, total: nat, n: nat, p: int)
    requires es >= 1 && p >= -1
    requires p == -1 || FreeRun(t, es, total, p, n)
    requires forall q :: 0 <= q && (p == -1 || q < p) ==> !FreeRun(t, es, total, q, n)
    ensures FirstFit(t, es, total, n) == p
  {
    var r := FirstFit(t, es, total, n);
    assert r == -1 || FreeRun(t, es, total, r, n);
  }

  // ----- sorting, as so-commons' list_sort promises it -----

  /** Two strictly ascending tables with the same entries are the same table. */
  lemma {:induction false} StrictOrderUnique(a: seq<Entry>, b: seq<Entry>)
    requires multiset(a) == multiset(b)
    requires forall i, j :: 0 <= i < j < |a| ==> a[i].number < a[j].number
    requires Ascending(b)
    ensures a == b
  {
    assert |multiset(a)| == |a| && |multiset(b)| == |b|;
    if a != [] {
      assert a[0] in multiset(b) && b[0] in multiset(a);
      assert a[0] in b && b[0] in a;
      TailMultiset(a);
      TailMultiset(b);
      StrictOrderUnique(a[1..], b[1..]);
    }
  }

  lemma TailMultiset(a: seq<Entry>)
    requires a != []
    ensures multiset(a[1..]) == multiset(a) - multiset{a[0]}
  {
    assert a == [a[0]] + a[1..];
  }

  /** `list_sort(entry_table, ascending)`. */
  method SortByNumber(t: seq<Entry>) returns (r: seq<Entry>)
    ensures multiset(r) == multiset(t) && Ascending(r)
  {
    r := [];
    for i := 0 to |t|
      invariant multiset(r) == multiset(t[..i]) && Ascending(r)
    {
      InsertElements(r, t[i]);
      InsertAscending(r, t[i]);
      assert t[..i + 1] == t[..i] + [t[i]];
      r := InsertSorted(r, t[i]);
    }
    assert t[..|t|] == t;
  }

  lemma InsertAscending(s: seq<Entry>, e: Entry)
    requires Ascending(s)
    ensures Ascending(InsertSorted(s, e))
  {
    var r, u := Rank(s, e.number), InsertSorted(s, e);
    forall a, b | 0 <= a < b < |u|
      ensures u[a].number <= u[b].number
    {
      assert u[a] == if a < r then s[a] else if a == r then e else s[a - 1];
      assert u[b] == if b < r then s[b] else if b == r then e else s[b - 1];
    }
  }
}
