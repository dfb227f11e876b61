/** Whole SETs: eviction, placement, compaction and retry together, and runs of them. */
module SetRuns {
  import opened EntryTable
  import opened Storage
  import opened Compaction
  import opened Slots
  import opened Agreement
  import opened Policies

  // ----- compaction and retry -----

  /** After a compaction a key that is not in the table goes right after the packed
      entries; the retry of its SET succeeds if and only if the free slots are enough. */
  lemma RetryAfterCompaction(a: Arena, k: Key, v: Value)
    requires a.Valid() && !Has(a.table, k) && |v| >= 1
    ensures Compacted(a).Valid() && !Has(Compacted(a).table, k)
    ensures Attempt(Compacted(a), k, v).0 == StatusOk <==> Blocks(|v|, a.es) <= a.Left()
    ensures Attempt(Compacted(a), k, v).0 == StatusOk ==>
              && Spot(Compacted(a).table, a.es, a.total, k, |v|) == Used(a.table, a.es)
              && Attempt(Compacted(a), k, v).1.Left() == a.Left() - Blocks(|v|, a.es)
  {
    var b, n := Compacted(a), Blocks(|v|, a.es);
    CompactionSound(a);
    PackedLookup(a.table, a.es, k);
    AbsentKeyAgrees(b.table, a.es, a.total, k, |v|);
    if n <= a.Left() {
      PackedFirstFit(a, n);
      SpotIsFree(b.table, a.es, a.total, k, |v|);
      PutWellPlaced(b.table, a.es, a.total, k, |v|, Used(a.table, a.es));
    }
  }

  lemma PackedFirstFit(a: Arena, n: nat)
    requires a.Valid() && 1 <= n <= a.Left()
    ensures FirstFit(Packed(a.table, a.es), a.es, a.total, n) == Used(a.table, a.es)
  {
    var t, p := Packed(a.table, a.es), Used(a.table, a.es);
    forall q: int
      ensures Occupied(t, a.es, q) <==> 0 <= q < p
    {
      FreeSlotsLast(a.table, a.es, a.total, q);
    }
    forall q | 0 <= q < p
      ensures !FreeRun(t, a.es, a.total, q, n)
    {
      assert Occupied(t, a.es, q);
    }
    FirstFitIs(t, a.es, a.total, n, p);
  }

  // ----- the status table through one attempt -----

  /** The status table after an attempt on the arena `a`. */
  ghost function SlotsAfter(a: Arena, slots: seq<Slot>, k: Key, v: Value): seq<Slot>
    requires a.Valid() && |v| >= 1
  {
    match Attempt(a, k, v).0
    case StatusOk => Added(slots, a.es, Entry(Spot(a.table, a.es, a.total, k, |v|), |v|, k))
    case StatusCompact => if Has(a.table, k) then Cleared(slots, k, Blocks(|v|, a.es)) else slots
    case _ => slots
  }

  /** Entry table and status table in step, on ordinary keys. */
  ghost predicate InStep(a: Arena, slots: seq<Slot>) {
    a.Valid() && |slots| == a.total && Tracks(a.table, a.es, slots) && OrdinaryKeys(a.table)
  }

  /** In step, and the only leftovers lie where the next value of `n` slots must go. */
  ghost predicate ReadyFor(a: Arena, slots: seq<Slot>, k: Key, n: nat) {
    && InStep(a, slots)
    && k !in NO_KEYS && !Has(a.table, k) && NoneCarries(slots, k)
    && n <= a.Left()
    && (NoneUsed(slots) || n == a.Left())
  }

  /** Placing an absent key on a table that is ready for it ends in agreement. */
  lemma PlacementAgrees(a: Arena, slots: seq<Slot>, k: Key, v: Value)
    requires |v| >= 1 && a.Valid() && ReadyFor(a, slots, k, Blocks(|v|, a.es))
    requires Attempt(a, k, v).0 == StatusOk
    ensures Agrees(Attempt(a, k, v).1.table, a.es, SlotsAfter(a, slots, k, v))
    ensures OrdinaryKeys(Attempt(a, k, v).1.table)
  {
    var p := Spot(a.table, a.es, a.total, k, |v|);
    SpotIsFree(a.table, a.es, a.total, k, |v|);
    PlacementTracks(a.table, a.es, a.total, slots, k, |v|, p);
    PutKeepsOrdinary(a.table, k, |v|, p);
    if !NoneUsed(slots) {
      PutWellPlaced(a.table, a.es, a.total, k, |v|, p);
      FullTableClean(Put(a.table, k, |v|, p), a.es, a.total, SlotsAfter(a, slots, k, v));
    } else {
      AddedKeepsClean(slots, a.es, Entry(p, |v|, k));
    }
  }

  lemma PutKeepsOrdinary(t: seq<Entry>, k: Key, size: nat, p: int)
    requires UniqueKeys(t) && OrdinaryKeys(t) && k !in NO_KEYS
    ensures OrdinaryKeys(Put(t, k, size, p))
  {
    RemoveElements(t, k);
    InsertElements(Remove(t, k), Entry(p, size, k));
  }

  /** An absent key with enough free slots never ends in StatusError, and a request to
      compact leaves both tables as they were. */
  lemma AbsentAttempt(a: Arena, k: Key, v: Value)
    requires a.Valid() && |v| >= 1 && !Has(a.table, k) && Blocks(|v|, a.es) <= a.Left()
    ensures Attempt(a, k, v).0 == StatusOk || Attempt(a, k, v) == (StatusCompact, a)
  {
    AbsentKeyAgrees(a.table, a.es, a.total, k, |v|);
    if a.table == [] {
      UsedAtMostTotal(a.table, a.es, a.total);
    }
  }

  /** A compaction keeps a table ready for a key. */
  lemma CompactionKeepsReady(a: Arena, slots: seq<Slot>, k: Key, n: nat)
    requires a.Valid() && ReadyFor(a, slots, k, n)
    ensures ReadyFor(Compacted(a), CompactedSlots(a.table, a.es, slots, |a.table|), k, n)
  {
    CompactionSound(a);
    CompactionTracks(a.table, a.es, a.total, slots, |a.table|);
    PackedLookup(a.table, a.es, k);
    StageKeys(a.table, a.es, |a.table|);
  }

  /** The map an arena stands for. */
  ghost function MapOf(a: Arena): map<Key, Value> {
    map j | j in (set e | e in a.table :: e.key) && Has(a.table, j) :: a.Get(j).value
  }

  lemma MapOfIs(a: Arena)
    ensures a.Represents(MapOf(a))
  {
    forall j
      ensures a.Get(j) == if j in MapOf(a) then Some(MapOf(a)[j]) else None
    {
      assert Has(a.table, j) ==> EntryOf(a.table, j) in a.table;
    }
  }

  lemma AttemptSound(a: Arena, k: Key, v: Value)
    requires a.Valid() && |v| >= 1
    ensures var b := Attempt(a, k, v).1;
            b.Valid() && b.es == a.es && b.total == a.total
  {
    MapOfIs(a);
    AttemptRefinesMap(a, k, v, MapOf(a));
  }

  /** An eviction that frees exactly what is missing makes the table ready for the absent key. */
  lemma EvictionMakesReady(a: Arena, slots: seq<Slot>, picked: seq<nat>, k: Key, n: nat)
    requires InStep(a, slots) && NoneUsed(slots) && k !in NO_KEYS && !Has(a.table, k)
    requires Victims(slots, picked) && |picked| == n - a.Left()
    ensures ReadyFor(a.(table := Purge(a.table, KeysAt(slots, picked))), Marked(slots, picked), k, n)
  {
    ExactEviction(a.table, a.es, a.total, slots, picked, n);
    PurgeSound(a.table, a.es, a.total, KeysAt(slots, picked));
    var u := Purge(a.table, KeysAt(slots, picked));
    assert Has(u, k) ==> EntryOf(u, k) in a.table;
    assert Has(u, k) ==> EntryOf(u, k) in u;
    AbsentKeyNotCarried(a, slots, k);
    if Has(u, k) {
      KeyHasOneEntry(a.table, EntryOf(u, k));
    }
  }

  lemma AbsentKeyNotCarried(a: Arena, slots: seq<Slot>, k: Key)
    requires InStep(a, slots) && NoneUsed(slots) && k !in NO_KEYS && !Has(a.table, k)
    ensures NoneCarries(slots, k)
  {
    forall q: nat | q < |slots|
      ensures slots[q].key != k
    {
      if Occupied(a.table, a.es, q) {
        var j :| 0 <= j < |a.table| && a.table[j].number <= q < End(a.table[j], a.es);
        assert a.table[j] in a.table && Covers(a.table[j], a.es, q);
        assert Matches(slots[q], a.table[j], a.es);
        KeyHasOneEntry(a.table, a.table[j]);
      } else {
        assert Vacant(a.table, slots[q]);
      }
    }
  }

  /** Rewriting a live key with the same number of slots succeeds where it is and keeps agreement. */
  lemma SameBlocksAgrees(a: Arena, slots: seq<Slot>, k: Key, v: Value)
    requires InStep(a, slots) && NoneUsed(slots) && |v| >= 1
    requires Has(a.table, k) && Blocks(|v|, a.es) == Blocks(EntryOf(a.table, k).size, a.es)
    ensures Attempt(a, k, v).0 == StatusOk
    ensures Agrees(Attempt(a, k, v).1.table, a.es, SlotsAfter(a, slots, k, v))
  {
    hide Tracks;
    hide Agrees;
    hide Added;
    hide Used;
    var e, n := EntryOf(a.table, k), Blocks(|v|, a.es);
    UsedAtMostTotal(a.table, a.es, a.total);
    assert Inside(e, a.es, a.total);
    assert Spot(a.table, a.es, a.total, k, |v|) == e.number;
    SpotIsFree(a.table, a.es, a.total, k, |v|);
    assert FreeRun(Remove(a.table, k), a.es, a.total, e.number, n);
    StaysAgrees(a.table, a.es, a.total, slots, k, |v|);
  }

  // ----- runs -----

  /** A request as the table and the storage see it: a SET with the keys its eviction
      replaced, whatever the policy chose, or a compaction. SETs refused before anything
      changes are no step at all. */
  datatype Request = SetRequest(key: Key, value: Value, replaced: seq<Key>) | CompactRequest

  ghost function Evicted(a: Arena, ks: seq<Key>): (r: Arena)
    requires a.Valid()
    ensures r.Valid() && r.es == a.es && r.total == a.total
  {
    PurgeSound(a.table, a.es, a.total, ks);
    a.(table := Purge(a.table, ks))
  }

  ghost function Serve(a: Arena, r: Request): (b: Arena)
    requires a.Valid() && (r.SetRequest? ==> |r.value| >= 1)
    ensures b.Valid() && b.es == a.es && b.total == a.total
  {
    match r
    case SetRequest(k, v, ks) =>
      AttemptSound(Evicted(a, ks), k, v);
      Attempt(Evicted(a, ks), k, v).1
    case CompactRequest =>
      CompactionSound(a);
      Compacted(a)
  }

  /** The same request on a plain map. */
  ghost function ServeMap(a: Arena, m: map<Key, Value>, r: Request): map<Key, Value>
    requires a.Valid() && (r.SetRequest? ==> |r.value| >= 1)
  {
    match r
    case CompactRequest => m
    case SetRequest(k, v, ks) =>
      var kept := m - KeySet(ks);
      match Attempt(Evicted(a, ks), k, v).0
      case StatusOk => kept[k := v]
      case StatusCompact => kept - {k}
      case _ => kept
  }

  ghost predicate Legal(rs: seq<Request>) {
    forall i :: 0 <= i < |rs| && rs[i].SetRequest? ==> |rs[i].value| >= 1
  }

  ghost function Run(a: Arena, rs: seq<Request>): (b: Arena)
    requires a.Valid() && Legal(rs)
    ensures b.Valid() && b.es == a.es && b.total == a.total
  {
    if rs == [] then a else Serve(Run(a, rs[..|rs| - 1]), rs[|rs| - 1])
  }

  ghost function RunMap(a: Arena, m: map<Key, Value>, rs: seq<Request>): map<Key, Value>
    requires a.Valid() && Legal(rs)
  {
    if rs == [] then m
    else ServeMap(Run(a, rs[..|rs| - 1]), RunMap(a, m, rs[..|rs| - 1]), rs[|rs| - 1])
  }

  lemma ServeRefinesMap(a: Arena, m: map<Key, Value>, r: Request)
    requires a.Valid() && a.Represents(m) && (r.SetRequest? ==> |r.value| >= 1)
    ensures Serve(a, r).Represents(ServeMap(a, m, r))
  {
    match r
    case CompactRequest => CompactionKeepsMap(a, m);
    case SetRequest(k, v, ks) =>
      PurgeRefinesMap(a, ks, m);
      AttemptRefinesMap(Evicted(a, ks), k, v, m - KeySet(ks));
  }

  /** Every state a run of SETs, evictions and compactions reaches is sound - table sorted,
      keys unique, blocks disjoint and inside the arena, free count exact - and stands for
      the map that the same run produces. */
  lemma {:induction false} RunRefinesMap(a: Arena, m: map<Key, Value>, rs: seq<Request>)
    requires a.Valid() && a.Represents(m) && Legal(rs)
    ensures Run(a, rs).Valid() && Run(a, rs).Represents(RunMap(a, m, rs))
    ensures 0 <= Run(a, rs).Left() <= a.total
  {
    UsedAtMostTotal(Run(a, rs).table, a.es, a.total);
    if rs != [] {
      RunRefinesMap(a, m, rs[..|rs| - 1]);
      ServeRefinesMap(Run(a, rs[..|rs| - 1]), RunMap(a, m, rs[..|rs| - 1]), rs[|rs| - 1]);
    }
  }

  /** A C string read back from `n` bytes stops at the first zero byte. */
  function CString(v: Value): Value {
    if v == [] || v[0] == 0 then [] else [v[0]] + CString(v[1..])
  }

  predicate IsString(v: Value) {
    forall i :: 0 <= i < |v| ==> v[i] != 0
  }

  /** A value is read back whole exactly when it has no zero byte. */
  lemma {:induction false} CStringWhole(v: Value)
    ensures CString(v) == v <==> IsString(v)
  {
    if v != [] {
      CStringWhole(v[1..]);
      assert v == [v[0]] + v[1..];
      assert IsString(v) <==> v[0] != 0 && IsString(v[1..]);
    }
  }

  /** Otherwise it is read back up to its first zero byte. */
  lemma {:induction false} CStringStops(v: Value)
    ensures CString(v) <= v && IsString(CString(v))
    ensures |CString(v)| < |v| ==> v[|CString(v)|] == 0
  {
    if v != [] && v[0] != 0 {
      CStringStops(v[1..]);
      assert v == [v[0]] + v[1..];
    }
  }

  ghost predicate Strings(m: map<Key, Value>) {
    forall k :: k in m ==> IsString(m[k])
  }

  lemma ServeKeepsStrings(a: Arena, m: map<Key, Value>, r: Request)
    requires a.Valid() && Strings(m) && (r.SetRequest? ==> |r.value| >= 1 && IsString(r.value))
    ensures Strings(ServeMap(a, m, r))
  {
  }

  lemma {:induction false} RunKeepsStrings(a: Arena, m: map<Key, Value>, rs: seq<Request>)
    requires a.Valid() && Legal(rs) && Strings(m)
    requires forall j :: 0 <= j < |rs| && rs[j].SetRequest? ==> IsString(rs[j].value)
    ensures Strings(RunMap(a, m, rs))
  {
    if rs != [] {
      RunKeepsStrings(a, m, rs[..|rs| - 1]);
      ServeKeepsStrings(Run(a, rs[..|rs| - 1]), RunMap(a, m, rs[..|rs| - 1]), rs[|rs| - 1]);
    }
  }

  /** When every value that is SET is a C string, every value is read back whole. */
  lemma ReadsBackWhole(a: Arena, m: map<Key, Value>, rs: seq<Request>, k: Key)
    requires a.Valid() && a.Represents(m) && Legal(rs) && Strings(m)
    requires forall j :: 0 <= j < |rs| && rs[j].SetRequest? ==> IsString(rs[j].value)
    requires k in RunMap(a, m, rs)
    ensures Run(a, rs).Get(k).Some? && CString(Run(a, rs).Get(k).value) == RunMap(a, m, rs)[k]
  {
    RunKeepsStrings(a, m, rs);
    RunRefinesMap(a, m, rs);
    CStringWhole(RunMap(a, m, rs)[k]);
  }
}
