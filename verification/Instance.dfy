/** The Instancia: entry table, status table and storage as one object, updated in place
    by SETs, evictions and compactions. */
module Instance {
  import opened EntryTable
  import opened Storage
  import opened Compaction
  import opened Slots
  import opened Agreement
  import opened Policies
  import opened SetRuns
  import opened Search
  import opened Eviction
  import opened SetSpecs
  import opened InstanceRuns
  import opened Answers

  class Instancia {
    const total: nat
    const es: nat
    const policy: Policy
    const data: array<Byte>
    var table: seq<Entry>
    var left: int
    var slots: seq<Slot>
    var pointer: nat

    ghost predicate Valid()
      reads this, data
    {
      && es >= 1
      && WellPlaced(table, es, total)
      && left == total - Used(table, es)
      && |slots| == total
      && data.Length == Offset(total, es)
    }

    /** The entry table and the bytes as a value. */
    ghost function Model(): Arena
      reads this, data
    {
      Arena(total, es, table, data[..])
    }

    ghost function Current(): State
      reads this, data
    {
      State(Model(), slots, pointer)
    }

    constructor (total: nat, es: nat, policy: Policy)
      requires es >= 1
      ensures Valid() && this.total == total && this.es == es && this.policy == policy
      ensures Model().Represents(map[]) && Agrees(table, es, slots) && OrdinaryKeys(table)
    {
      this.total, this.es, this.policy := total, es, policy;
      OffsetIsProduct(total, es);
      data := new Byte[total * es](_ => 0);
      table, left, pointer := [], total, 0;
      slots := seq(total, _ => Slot(FreeSlot, "", 0, 0));
    }

    // ----- storage -----

    /** `storage_set`: refuses to write past the end. */
    method StorageSet(p: nat, v: Value) returns (ok: bool)
      requires Valid()
      modifies data
      ensures ok <==> Offset(p, es) + |v| <= Offset(total, es)
      ensures data[..] == if ok then Write(old(data[..]), Offset(p, es), v) else old(data[..])
    {
      OffsetIsProduct(p, es);
      OffsetIsProduct(total, es);
      var off := p * es;
      if off + |v| > total * es {
        return false;
      }
      ghost var was := data[..];
      var i := 0;
      while i < |v|
        invariant 0 <= i <= |v|
        invariant data[..] == was[..off] + v[..i] + was[off + i..]
      {
        data[off + i] := v[i];
        i := i + 1;
      }
      return true;
    }

    /** `storage_retrieve`. */
    method StorageRetrieve(e: Entry) returns (v: Value)
      requires Valid() && e in table
      ensures v == Stored(data[..], es, e) && |v| == e.size
    {
      assert Inside(e, es, total);
      InsideBytes(e, es, total);
      OffsetIsProduct(e.number, es);
      v := data[e.number * es..e.number * es + e.size];
    }

    // ----- entry table -----

    /** `entry_table_delete`. */
    method TableDelete(k: Key) returns (deleted: bool)
      requires Valid()
      modifies this`table, this`left
      ensures Valid() && table == Remove(old(table), k) && deleted == Has(old(table), k)
    {
      ghost var t := table;
      RemoveWellPlaced(t, es, total, k);
      for i := 0 to |table|
        invariant table == t && left == old(left)
        invariant forall j :: 0 <= j < i ==> t[j].key != k
      {
        if table[i].key == k {
          assert IndexOf(t, k) == i && Remove(t, k) == t[..i] + t[i + 1..];
          left := left + ReqEntries(table[i].size, es);
          table := table[..i] + table[i + 1..];
          return true;
        }
      }
      assert IndexOf(t, k) < 0;
      return false;
    }

    /** `entry_table_delete_few`. */
    method DeleteFew(ks: seq<Key>)
      requires Valid()
      modifies this`table, this`left
      ensures Valid() && table == Purge(old(table), ks)
    {
      var i := 0;
      while i < |ks|
        invariant 0 <= i <= |ks| && Valid()
        invariant Purge(table, ks[i..]) == Purge(old(table), ks)
      {
        var deleted := TableDelete(ks[i]);
        assert ks[i..][1..] == ks[i + 1..];
        i := i + 1;
      }
    }

    /** `entry_table_insert`: adds or updates the entry and sorts the table again. */
    method TableInsert(p: int, k: Key, size: nat) returns (ok: bool)
      requires Valid() && size >= 1
      requires p >= 0 ==> FreeRun(Remove(table, k), es, total, p, Blocks(size, es))
      modifies this`table, this`left
      ensures Valid() && ok == (p >= 0)
      ensures table == if p >= 0 then Put(old(table), k, size, p) else old(table)
    {
      if p < 0 {
        return false;
      }
      PutWellPlaced(table, es, total, k, size, p);
      if IndexOf(table, k) < 0 {
        AddEntry(p, k, size);
      } else {
        ChangeEntry(p, k, size);
      }
      return true;
    }

    method AddEntry(p: nat, k: Key, size: nat)
      requires Valid() && size >= 1 && !Has(table, k)
      requires FreeRun(table, es, total, p, Blocks(size, es)) && WellPlaced(Put(table, k, size, p), es, total)
      modifies this`table, this`left
      ensures Valid() && table == Put(old(table), k, size, p)
    {
      ghost var t, target := table, Put(table, k, size, p);
      left := left - ReqEntries(size, es);
      InsertUsed(t, es, Entry(p, size, k));
      InsertElements(t, Entry(p, size, k));
      NumbersAscend(target, es, total);
      table := SortByNumber(table + [Entry(p, size, k)]);
      StrictOrderUnique(target, table);
    }

    method ChangeEntry(p: nat, k: Key, size: nat)
      requires Valid() && size >= 1 && Has(table, k)
      requires FreeRun(Remove(table, k), es, total, p, Blocks(size, es))
      requires WellPlaced(Put(table, k, size, p), es, total)
      modifies this`table, this`left
      ensures Valid() && table == Put(old(table), k, size, p)
    {
      var i := IndexOf(table, k);
      PutUsed(table, es, total, k, size, p);
      left := left + ReqEntries(table[i].size, es) - ReqEntries(size, es);
      table := Updated(table, es, total, i, p, size);
    }

    /** The second half of the update in `entry_table_insert`: an entry keeps its place in the
        list when only its size changes, else the list is sorted again. */
    static method Updated(t: seq<Entry>, es: nat, total: nat, i: nat, p: nat, size: nat) returns (r: seq<Entry>)
      requires es >= 1 && WellPlaced(t, es, total) && i < |t| && size >= 1
      requires FreeRun(Remove(t, t[i].key), es, total, p, Blocks(size, es))
      ensures r == Put(t, t[i].key, size, p)
    {
      UpdateSorts(t, es, total, i, p, size);
      if p == t[i].number {
        r := t[i := t[i].(size := size)];
      } else {
        r := SortByNumber(t[i := t[i].(size := size, number := p)]);
        StrictOrderUnique(Put(t, t[i].key, size, p), r);
      }
    }

    // ----- status table -----

    /** `entry_table_status_add_kv`. */
    method StatusAdd(k: Key, size: nat, p: nat)
      requires Valid() && p + Blocks(size, es) <= total
      modifies this`slots
      ensures slots == Added(old(slots), es, Entry(p, size, k))
    {
      AgeAll();
      StampRun(p, ReqEntries(size, es), SlotOf(Entry(p, size, k), es));
    }

    method AgeAll()
      requires |slots| == total
      modifies this`slots
      ensures slots == Aged(old(slots))
    {
      var i := 0;
      while i < total
        invariant 0 <= i <= total && |slots| == total
        invariant forall q :: 0 <= q < i ==> slots[q] == Aged(old(slots))[q]
        invariant forall q :: i <= q < total ==> slots[q] == old(slots)[q]
      {
        if slots[i].kind != FreeSlot {
          slots := slots[i := slots[i].(lastReferenced := slots[i].lastReferenced + 1)];
        }
        i := i + 1;
      }
    }

    method StampRun(p: nat, n: nat, s: Slot)
      requires |slots| == total && p + n <= total
      modifies this`slots
      ensures slots == Stamped(old(slots), p, n, s)
    {
      var q := p;
      while q < p + n
        invariant p <= q <= p + n && |slots| == total
        invariant slots == Stamped(old(slots), p, q - p, s)
      {
        slots := slots[q := s];
        q := q + 1;
      }
    }

    /** `entry_table_status_delete_kv` for a value of `n` slots. */
    method StatusDelete(k: Key, n: nat)
      requires Valid()
      modifies this`slots
      ensures slots == Cleared(old(slots), k, n)
    {
      hide Cleared;
      hide ClearedTo;
      hide CountKey;
      StartCleared(slots, k, n);
      var i, deleted := 0, 0;
      while i < total && deleted != n
        invariant 0 <= i <= total && |slots| == total
        invariant deleted <= n && deleted == CountKey(old(slots)[..i], k)
        invariant slots == ClearedTo(old(slots), k, n, i)
      {
        CountNext(old(slots), k, i);
        ClearedNext(old(slots), k, n, i);
        if slots[i].key == k {
          slots := slots[i := CLEARED];
          deleted := deleted + 1;
        }
        i := i + 1;
      }
      ClearedFull(old(slots), k, n, i);
    }

    // ----- eviction -----

    /** `algorithms_exec`. */
    method AlgorithmsExec(needed: nat, replaced: seq<Key>)
      returns (r: int, replaced': seq<Key>, ghost picked: seq<nat>, ghost order: seq<nat>)
      requires Valid()
      modifies this`slots, this`pointer
      ensures Chosen(policy, old(slots), old(pointer), needed, left, AtomicCount(table, es), picked, order)
      ensures r == 0 <==>
              policy == Circular && 0 <= left && CanEvict(needed, left, AtomicCount(table, es)) && picked == []
      ensures InRange(picked, |old(slots)|)
      ensures slots == Marked(old(slots), picked) && replaced' == replaced + KeysAt(old(slots), picked)
      ensures PointerMoves(policy, old(slots), old(pointer), pointer, needed, left, AtomicCount(table, es), order)
    {
      UsedAtMostTotal(table, es, total);
      var r', p, s;
      r', p, s, replaced', picked, order :=
        ExecPolicy(policy, needed, left, AtomicCount(table, es), es, pointer, slots, replaced);
      r, pointer, slots := r', p, s;
    }

    static method ExecPolicy(policy: Policy, needed: nat, left: nat, atomics: nat, es: nat,
                             pointer: nat, slots: seq<Slot>, replaced: seq<Key>)
      returns (r: int, pointer': nat, slots': seq<Slot>, replaced': seq<Key>,
               ghost picked: seq<nat>, ghost order: seq<nat>)
      requires es >= 1
      ensures Chosen(policy, slots, pointer, needed, left, atomics, picked, order) && InRange(picked, |slots|)
      ensures r == 0 <==> policy == Circular && CanEvict(needed, left, atomics) && picked == []
      ensures PointerMoves(policy, slots, pointer, pointer', needed, left, atomics, order)
      ensures slots' == Marked(slots, picked) && replaced' == replaced + KeysAt(slots, picked)
    {
      order, pointer' := [], pointer;
      match policy {
        case Circular =>
          r, pointer', slots', replaced', picked :=
            AlgorithmCircular(AllSlots(|slots|), needed, left, atomics, pointer, slots, replaced);
        case LeastRecentlyUsed =>
          r, slots', replaced', picked, order := AlgorithmLru(needed, left, atomics, slots, replaced);
        case BiggestSpaceUsed =>
          r, pointer', slots', replaced', picked, order :=
            AlgorithmBsu(needed, left, atomics, es, pointer, slots, replaced);
        case UnknownPolicy =>
          r, slots', replaced', picked := -1, slots, replaced, [];
          MarkedNothing(slots);
      }
    }

    // ----- compaction -----

    /** `compactation_compact`: delete, place again, insert and write back each entry in turn. */
    method Compact()
      requires Valid()
      modifies this`table, this`left, this`slots, data
      ensures Valid() && Model() == Compacted(old(Model()))
      ensures slots == CompactedSlots(old(table), es, old(slots), |old(table)|)
    {
      ghost var a0, t0, b0, s0 := Model(), table, data[..], slots;
      assert Stage(t0, es, 0) == t0;
      var i: nat := 0;
      while i < |table|
        invariant i <= |t0| && |table| == |t0| && InCompaction(t0, b0, s0, i)
        decreases |t0| - i
      {
        i := MoveNext(i, t0, b0, s0);
      }
      CompactionSound(a0);
      assert Model() == Compacted(a0);
    }

    /** The instance when the first i entries of the table t0 have been moved. */
    ghost predicate InCompaction(t0: seq<Entry>, b0: seq<Byte>, s0: seq<Slot>, i: nat)
      reads this, data
    {
      && Valid() && WellPlaced(t0, es, total) && |b0| == Offset(total, es) && i <= |t0|
      && table == Stage(t0, es, i)
      && data[..] == MovedBytes(t0, es, total, b0, i)
      && slots == CompactedSlots(t0, es, s0, i)
    }

    method MoveNext(i: nat, ghost t0: seq<Entry>, ghost b0: seq<Byte>, ghost s0: seq<Slot>) returns (next: nat)
      requires i < |t0| && InCompaction(t0, b0, s0, i)
      modifies this`table, this`left, this`slots, data
      ensures next == i + 1 && |table| == |t0| && InCompaction(t0, b0, s0, next)
    {
      MoveEntry(i, t0);
      next := i + 1;
    }

    // ----- requests -----

    /** `instance_status`: the value comes back as a C string. */
    method InstanceStatus(k: Key) returns (r: Option<Value>)
      requires Valid()
      ensures r == match Model().Get(k) case None => None case Some(v) => Some(CString(v))
    {
      var e := GetEntry(table, k);
      if e.None? {
        return None;
      }
      var v := StorageRetrieve(e.value);
      return Some(CString(v));
    }

    /** The SET case of `instance_thread_api`. The answer sent is `reported`, with `usage`;
        when it asks for a compaction, the instance compacts and tries again. The ghost `m`
        is the map the instance stands for, `gone` the keys replaced on the way, `calls` the
        calls that are made. */
    method ServeSet(isNew: bool, k: Key, v: Value, ghost m: map<Key, Value>)
      returns (reported: Status, usage: int, final: Status, ghost gone: seq<Key>, ghost calls: seq<Call>)
      requires Valid() && |v| >= 1 && Model().Represents(m)
      modifies this`table, this`left, this`slots, this`pointer, data
      ensures Valid()
      // a key that is neither new nor present is refused, and nothing changes
      ensures reported == StatusReplaced <==> !isNew && !Has(old(table), k)
      ensures reported == StatusReplaced ==> Current() == old(Current()) && usage == total - left && calls == []
      // an accepted one is refused for lack of space exactly when its value lacks more slots than are
      // free or taken by atomic entries
      ensures isNew || Has(old(table), k) ==>
                (reported == StatusNoSpace
                 <==> DiffEntries(old(table), es, k, |v|) > old(left) + AtomicCount(old(table), es))
      // it is one call of `instance_set`, or two with a compaction between them
      ensures reported != StatusReplaced ==>
                && OneRequest(calls) && CallRun(policy, old(Current()), calls)
                && Current() == Final(old(Current()), calls)
                && Asks(calls[0], k, v) && calls[0].st == reported
                && Asks(calls[|calls| - 1], k, v) && calls[|calls| - 1].st == final
                && calls[|calls| - 1].replaced == gone
      ensures reported != StatusReplaced ==>
                usage == Used(calls[0].after.arena.table, es) + if reported == StatusCompact then Blocks(|v|, es) else 0
      // its status is that of the placement, with the replaced keys gone if slots are lacking
      ensures reported != StatusReplaced ==> Replies(policy, old(Current()), calls[0])
      // what the answer says is what happened to the map
      ensures final == StatusOk ==> Model().Represents((m - KeySet(gone))[k := v]) && Model().Get(k) == Some(v)
      ensures reported == StatusNoSpace ==> Current() == old(Current())
      ensures final == StatusError && reported == StatusError ==> Model().Represents(m - KeySet(gone))
      ensures final != StatusOk && reported == StatusCompact ==> Model().Represents(m - KeySet(gone) - {k})
      ensures reported != StatusCompact ==> final == reported && usage == total - left
      // an answer of compaction is kept without further eviction exactly when the usage it reports fits
      ensures reported == StatusCompact ==> (usage <= total <==> final == StatusOk && usage == total - left)
      // both tables agree again, and no more keys were replaced than the missing slots
      ensures old(InStep(Model(), slots) && NoneUsed(slots)) && k !in NO_KEYS && reported != StatusReplaced
              && old(Suited(policy, table, es, slots, left, k, |v|)) && AbsentOrSameBlocks(old(table), es, k, |v|) ==>
                && InStep(Model(), slots) && NoneUsed(slots)
                && (reported != StatusNoSpace ==> final == StatusOk)
                && (final == StatusOk ==>
                      |gone|
                      == if DiffEntries(old(table), es, k, |v|) > old(left) then Blocks(|v|, es) - old(left) else 0)
    {
      hide *;
      if !(isNew || Has(table, k)) {
        return StatusReplaced, total - left, StatusReplaced, [], [];
      }
      reported, usage, final, gone, calls := ServeAccepted(k, v, m);
    }

    /** The same for a key that is new or present. */
    method ServeAccepted(k: Key, v: Value, ghost m: map<Key, Value>)
      returns (reported: Status, usage: int, final: Status, ghost gone: seq<Key>, ghost calls: seq<Call>)
      requires Valid() && |v| >= 1 && Model().Represents(m)
      modifies this`table, this`left, this`slots, this`pointer, data
      ensures Valid()
      ensures reported in {StatusOk, StatusCompact, StatusNoSpace, StatusError}
      ensures reported == StatusNoSpace
              <==> DiffEntries(old(table), es, k, |v|) > old(left) + AtomicCount(old(table), es)
      ensures OneRequest(calls) && CallRun(policy, old(Current()), calls)
      ensures Current() == Final(old(Current()), calls)
      ensures Asks(calls[0], k, v) && calls[0].st == reported
      ensures Asks(calls[|calls| - 1], k, v) && calls[|calls| - 1].st == final && calls[|calls| - 1].replaced == gone
      ensures usage == Used(calls[0].after.arena.table, es) + if reported == StatusCompact then Blocks(|v|, es) else 0
      ensures Replies(policy, old(Current()), calls[0])
      ensures final == StatusOk ==> Model().Represents((m - KeySet(gone))[k := v]) && Model().Get(k) == Some(v)
      ensures reported == StatusNoSpace ==> Current() == old(Current())
      ensures final == StatusError && reported == StatusError ==> Model().Represents(m - KeySet(gone))
      ensures final != StatusOk && reported == StatusCompact ==> Model().Represents(m - KeySet(gone) - {k})
      ensures reported != StatusCompact ==> final == reported && usage == total - left
      ensures reported == StatusCompact ==> (usage <= total <==> final == StatusOk && usage == total - left)
      ensures old(InStep(Model(), slots) && NoneUsed(slots)) && k !in NO_KEYS
              && old(Suited(policy, table, es, slots, left, k, |v|)) && AbsentOrSameBlocks(old(table), es, k, |v|) ==>
                && InStep(Model(), slots) && NoneUsed(slots)
                && (reported != StatusNoSpace ==> final == StatusOk)
                && (final == StatusOk ==>
                      |gone|
                      == if DiffEntries(old(table), es, k, |v|) > old(left) then Blocks(|v|, es) - old(left) else 0)
    {
      hide SetSpec;
      hide ReqEntries;
      hide ExactPolicy;
      hide CallRun;
      hide CallStep;
      hide Final;
      hide AtomicCount;
      hide Refined;
      hide Agrees;
      hide Replies;
      hide Arena.Represents;
      hide Arena.Get;
      hide WellPlaced;
      hide Used;
      ghost var s0 := Current();
      ghost var x;
      var replaced;
      reported, usage, replaced, x := FirstSet(k, v, m);
      final, gone, calls := reported, replaced, [x];
      NoSpaceIff(policy, s0, x);
      CallAnswers(policy, s0, x);
      FirstAnswer(policy, s0, x, m);
      if reported == StatusCompact {
        final, gone, calls := CompactAndRetry(k, v, replaced, x.after, m);
        CallBefore(policy, s0, x, calls);
        calls := [x] + calls;
      }
    }

    /** The first call, and the usage that is sent with its status. */
    method FirstSet(k: Key, v: Value, ghost m: map<Key, Value>)
      returns (reported: Status, usage: int, replaced: seq<Key>, ghost x: Call)
      requires Valid() && |v| >= 1 && Model().Represents(m)
      modifies this`table, this`left, this`slots, this`pointer, data
      ensures Valid() && Asks(x, k, v) && x.given == [] && CallStep(policy, old(Current()), x)
      ensures x.st == reported && x.replaced == replaced && x.after == Current()
      ensures usage == total - left + if reported == StatusCompact then Blocks(|v|, es) else 0
    {
      hide SetSpec;
      ghost var s0, picked, order := Current(), [], [];
      reported, replaced, picked, order := InstanceSet(k, v, []);
      x := SetCall(k, v, [], reported, Current(), replaced, picked, order);
      FirstAnswer(policy, s0, x, m);
      usage := total - left + if reported == StatusCompact then DiffEntries(table, es, k, |v|) else 0;
    }

    /** A request that the policies are made for: a SET of an absent key, or of a live one with
        as many slots, that evicts nothing or exactly what is missing; and whatever is no SET. */
    predicate Regular(r: Asked)
      reads this
    {
      r.AskSet? ==>
        && |r.value| >= 1 && r.key !in NO_KEYS
        && es >= 1 && Suited(policy, table, es, slots, left, r.key, |r.value|)
        && AbsentOrSameBlocks(table, es, r.key, |r.value|)
    }

    /** A SET that is accepted, but whose value lacks more slots than are free or taken by atomic
        entries. */
    predicate TooBig(r: Asked)
      reads this
    {
      && r.AskSet? && (r.isNew || Has(table, r.key))
      && es >= 1 && DiffEntries(table, es, r.key, |r.value|) > left + AtomicCount(table, es)
    }

    /** One turn of the loop of `instance_thread_api`; a SET that is refused for lack of space ends
        it. The ghost `calls` are the calls that are made. */
    method ServeOne(r: Asked) returns (alive: bool, ghost calls: seq<Call>)
      requires Valid() && Agreeing(Current()) && Regular(r)
      modifies this`table, this`left, this`slots, this`pointer, data
      ensures Valid() && Agreeing(Current())
      ensures !alive <==> old(TooBig(r))
      ensures !alive ==> Current() == old(Current())
      ensures alive && r.AskSet? && (r.isNew || Has(old(table), r.key)) ==> Model().Get(r.key) == Some(r.value)
      ensures r.AskValue? || (r.AskSet? && !r.isNew && !Has(old(table), r.key)) ==> Current() == old(Current())
      ensures r.AskCompact? ==> Model() == Compacted(old(Model()))
      ensures CallRun(policy, old(Current()), calls) && Current() == Final(old(Current()), calls)
    {
      match r
      case AskValue(k) =>
        var _ := InstanceStatus(k);
        alive, calls := true, [];
      case AskCompact =>
        ghost var next := State(Compacted(Model()), CompactedSlots(table, es, slots, |table|), pointer);
        CompactionAgrees(policy, Current(), CompactCall(next));
        OneCall(policy, Current(), CompactCall(next));
        Compact();
        alive, calls := true, [CompactCall(next)];
      case AskSet(isNew, k, v) =>
        MapOfIs(Model());
        var reported, usage, final;
        ghost var gone;
        reported, usage, final, gone, calls := ServeSet(isNew, k, v, MapOf(Model()));
        alive := reported != StatusNoSpace && reported != StatusError;
    }

    /** The loop of `instance_thread_api`: the tables agree after every request, and the instance
        stands for the map that the calls make, for as long as the requests are regular. */
    method ThreadApi(requests: seq<Asked>) returns (served: nat, alive: bool, ghost calls: seq<Call>)
      requires Valid() && Agreeing(Current())
      modifies this`table, this`left, this`slots, this`pointer, data
      ensures Valid() && Agreeing(Current())
      ensures served <= |requests|
      ensures alive ==> served == |requests| || !Regular(requests[served])
      ensures !alive ==> served > 0 && TooBig(requests[served - 1])
      ensures CallRun(policy, old(Current()), calls) && Current() == Final(old(Current()), calls)
      ensures var m := MapOf(old(Model())); old(Model()).Represents(m)
      ensures Legal(Requests(old(Current()), calls))
      ensures Model().Represents(RunMap(old(Model()), MapOf(old(Model())), Requests(old(Current()), calls)))
    {
      ghost var s0 := Current();
      served, alive, calls := 0, true, [];
      while alive && served < |requests| && Regular(requests[served])
        invariant served <= |requests| && Valid() && Agreeing(Current())
        invariant !alive ==> served > 0 && TooBig(requests[served - 1])
        invariant CallRun(policy, s0, calls) && Current() == Final(s0, calls)
      {
        ghost var more;
        alive, more := ServeOne(requests[served]);
        CallsJoined(policy, s0, calls, more);
        calls := calls + more;
        served := served + 1;
      }
      MapOfIs(s0.arena);
      CallsRefineMap(policy, s0, calls, MapOf(s0.arena));
    }

    /** The compaction after a SET that asked for one, and its second attempt. */
    method CompactAndRetry(k: Key, v: Value, replaced: seq<Key>, ghost s1: State, ghost m: map<Key, Value>)
      returns (final: Status, ghost gone: seq<Key>, ghost calls: seq<Call>)
      requires Valid() && |v| >= 1 && s1 == Current() && !Has(s1.arena.table, k)
      requires s1.arena.Represents(m - KeySet(replaced) - {k})
      modifies this`table, this`left, this`slots, this`pointer, data
      ensures Valid()
      ensures CallRun(policy, s1, calls) && Final(s1, calls) == Current()
      ensures |calls| == 2 && calls[0].CompactCall? && Asks(calls[1], k, v)
      ensures calls[1].given == replaced && calls[1].st == final && calls[1].replaced == gone
      ensures final == StatusOk ==> Model().Represents((m - KeySet(gone))[k := v]) && Model().Get(k) == Some(v)
      ensures final != StatusOk ==> Model().Represents(m - KeySet(gone) - {k})
      ensures var usage := total - s1.arena.Left() + Blocks(|v|, es);
              usage <= total <==> final == StatusOk && usage == total - left
      ensures ReadyFor(s1.arena, s1.slots, k, Blocks(|v|, es)) ==>
                final == StatusOk && InStep(Model(), slots) && NoneUsed(slots) && gone == replaced
    {
      Compact();
      ghost var s2 := Current();
      ghost var picked', order';
      var replaced';
      final, replaced', picked', order' := InstanceSet(k, v, replaced);
      ghost var s3 := Current();
      CompactionKeepsMap(s1.arena, m - KeySet(replaced) - {k});
      RetryKeepsPromise(policy, s1, s2, k, v, replaced, final, s3, replaced', picked', order');
      SecondOutcome(policy, s2, k, v, replaced, final, s3, replaced', picked', order', m);
      if ReadyFor(s1.arena, s1.slots, k, Blocks(|v|, es)) {
        RetryAgrees(policy, s1, s2, k, v, replaced, final, s3, replaced', picked', order');
      }
      gone := replaced';
      calls := [CompactCall(s2), SetCall(k, v, replaced, final, s3, replaced', picked', order')];
      RetryRun(policy, s1, calls[0], calls[1]);
    }

    // ----- SET -----

    /** `instance_set`. */
    method InstanceSet(k: Key, v: Value, replaced: seq<Key>)
      returns (st: Status, replaced': seq<Key>, ghost picked: seq<nat>, ghost order: seq<nat>)
      requires Valid() && |v| >= 1
      modifies this`table, this`left, this`slots, this`pointer, data
      ensures Valid()
      ensures SetSpec(policy, old(Current()), k, v, replaced, st, Current(), replaced', picked, order)
    {
      replaced', picked, order := replaced, [], [];
      var diff := DiffEntries(table, es, k, |v|);
      if diff > left + AtomicCount(table, es) {
        return StatusNoSpace, replaced', picked, order;
      }
      if diff > left {
        var r;
        r, replaced', picked, order := MakeRoom(|v|, replaced, Model(), slots);
        if r == 0 {
          return StatusError, replaced', picked, order;
        }
      }
      st := PlaceValue(k, v);
    }

    /** The eviction of `instance_set`: 0 when the algorithm found no victim. */
    method MakeRoom(size: nat, replaced: seq<Key>, ghost a: Arena, ghost s: seq<Slot>)
      returns (r: int, replaced': seq<Key>, ghost picked: seq<nat>, ghost order: seq<nat>)
      requires Valid() && a == Model() && s == slots
      modifies this`table, this`left, this`slots, this`pointer
      ensures Valid()
      ensures Chosen(policy, s, old(pointer), Blocks(size, es), a.Left(), AtomicCount(a.table, es), picked, order)
      ensures InRange(picked, |s|) && replaced' == replaced + KeysAt(s, picked)
      ensures r == 0 <==>
              && policy == Circular && 0 <= a.Left()
              && CanEvict(Blocks(size, es), a.Left(), AtomicCount(a.table, es)) && picked == []
      ensures PointerMoves(policy, s, old(pointer), pointer, Blocks(size, es), a.Left(), AtomicCount(a.table, es),
                           order)
      ensures if r == 0 then Model() == a && slots == s
              else Model() == Evicted(a, replaced') && slots == Marked(s, picked)
    {
      hide Chosen;
      hide PointerMoves;
      hide InRange;
      hide KeysAt;
      hide CanEvict;
      hide AtomicCount;
      hide WellPlaced;
      hide Used;
      hide Blocks;
      hide Marked;
      MarkedNothing(s);
      r, replaced', picked, order := AlgorithmsExec(ReqEntries(size, es), replaced);
      if r != 0 {
        DropReplaced(replaced', a);
      }
    }

    method DropReplaced(ks: seq<Key>, ghost a: Arena)
      requires Valid() && a == Model()
      modifies this`table, this`left
      ensures Valid() && Model() == Evicted(a, ks)
    {
      DeleteFew(ks);
    }

    /** `instance_set` from the contiguity test on. */
    method PlaceValue(k: Key, v: Value) returns (st: Status)
      requires Valid() && |v| >= 1
      modifies this`table, this`left, this`slots, data
      ensures Valid()
      ensures (st, Model()) == Attempt(old(Model()), k, v)
      ensures slots == SlotsAfter(old(Model()), old(slots), k, v)
    {
      hide Spot;
      hide FirstFit;
      hide Cleared;
      hide Added;
      hide Contiguous;
      hide Offset;
      hide Used;
      var size := |v|;
      var contiguous := HasContinuousEntries(table, es, total, k, size);
      if !contiguous {
        TakeOutForCompaction(k, size);
        return StatusCompact;
      }
      st := WriteAndInsert(k, v);
    }

    /** A value without a contiguous run: a live key leaves the tables until the retry. */
    method TakeOutForCompaction(k: Key, size: nat)
      requires Valid()
      modifies this`table, this`left, this`slots
      ensures Valid() && table == Remove(old(table), k)
      ensures slots == if Has(old(table), k) then Cleared(old(slots), k, Blocks(size, es)) else old(slots)
    {
      if Has(table, k) {
        var deleted := TableDelete(k);
        StatusDelete(k, ReqEntries(size, es));
      }
    }

    /** The write and the update of both tables, for a value with a contiguous run. */
    method WriteAndInsert(k: Key, v: Value) returns (st: Status)
      requires Valid() && |v| >= 1 && Contiguous(table, es, total, k, |v|)
      modifies this`table, this`left, this`slots, data
      ensures Valid()
      ensures (st, Model()) == Attempt(old(Model()), k, v)
      ensures slots == SlotsAfter(old(Model()), old(slots), k, v)
    {
      ghost var a, s := Model(), slots;
      AttemptCases(a, s, k, v);
      var next := NextEntry(table, es, total, left, k, |v|);
      if next < 0 {
        return StatusError;
      }
      st := WriteAt(next, k, v, a, s);
    }

    method WriteAt(next: nat, k: Key, v: Value, ghost a: Arena, ghost s: seq<Slot>) returns (st: Status)
      requires Valid() && |v| >= 1 && a == Model() && s == slots && next == Spot(a.table, es, total, k, |v|)
      requires AttemptOutcome(a, s, k, v)
      modifies this`table, this`left, this`slots, data
      ensures Valid()
      ensures (st, Model()) == Attempt(a, k, v) && slots == SlotsAfter(a, s, k, v)
    {
      ByteLimitIsSlotLimit(next, |v|, es, total);
      var written := StorageSet(next, v);
      if !written {
        return StatusError;
      }
      var inserted := TableInsert(next, k, |v|);
      StatusAdd(k, |v|, next);
      assert Model() == a.(table := Put(a.table, k, |v|, next), bytes := Write(a.bytes, Offset(next, es), v));
      return StatusOk;
    }

    /** The body of the loop, for the entry at index `i`. */
    method MoveEntry(i: nat, ghost t0: seq<Entry>)
      requires Valid() && WellPlaced(t0, es, total) && i < |t0| && table == Stage(t0, es, i)
      modifies this`table, this`left, this`slots, data
      ensures Valid() && table == Stage(t0, es, i + 1)
      ensures data[..] == Move(t0, es, total, old(data[..]), i)
      ensures slots == Added(Cleared(old(slots), t0[i].key, Blocks(t0[i].size, es)), es,
                             t0[i].(number := Used(t0[..i], es)))
    {
      hide Spot;
      hide Cleared;
      hide Added;
      hide Stage;
      hide Put;
      hide Offset;
      StagePlace(t0, es, total, i);
      MoveFits(t0, es, total, i);
      var e := table[i];
      var value := StorageRetrieve(e);
      TakeOut(e);
      PlaceAgain(e, value, Used(t0[..i], es));
    }

    method TakeOut(e: Entry)
      requires Valid()
      modifies this`table, this`left, this`slots
      ensures Valid() && table == Remove(old(table), e.key)
      ensures slots == Cleared(old(slots), e.key, Blocks(e.size, es))
    {
      var deleted := TableDelete(e.key);
      StatusDelete(e.key, ReqEntries(e.size, es));
    }

    /** An entry taken out goes where the table finds room for it, p. */
    method PlaceAgain(e: Entry, value: Value, ghost p: nat)
      requires Valid() && e.size == |value| >= 1 && p == Spot(table, es, total, e.key, e.size)
      requires FreeRun(Remove(table, e.key), es, total, p, Blocks(e.size, es))
      requires Offset(p, es) + e.size <= Offset(total, es)
      modifies this`table, this`left, this`slots, data
      ensures Valid() && table == Put(old(table), e.key, e.size, p)
      ensures data[..] == Write(old(data[..]), Offset(p, es), value)
      ensures slots == Added(old(slots), es, Entry(p, e.size, e.key))
    {
      var next := NextEntry(table, es, total, left, e.key, e.size);
      var inserted := TableInsert(next, e.key, e.size);
      StatusAdd(e.key, e.size, next);
      var written := StorageSet(next, value);
    }
  }

  /** What the loop of `instance_thread_api` is asked for: a SET, a compaction, a value. */
  datatype Asked = AskSet(isNew: bool, key: Key, value: Value) | AskCompact | AskValue(key: Key)

  /** What an attempt with a contiguous run comes to. */
  ghost predicate AttemptOutcome(a: Arena, s: seq<Slot>, k: Key, v: Value)
    requires a.Valid() && |v| >= 1
  {
    var p, n := Spot(a.table, a.es, a.total, k, |v|), Blocks(|v|, a.es);
    if p < 0 || p + n > a.total then Attempt(a, k, v) == (StatusError, a) && SlotsAfter(a, s, k, v) == s
    else
      && FreeRun(Remove(a.table, k), a.es, a.total, p, n)
      && Offset(p, a.es) + |v| <= |a.bytes|
      && Attempt(a, k, v)
         == (StatusOk, a.(table := Put(a.table, k, |v|, p), bytes := Write(a.bytes, Offset(p, a.es), v)))
      && SlotsAfter(a, s, k, v) == Added(s, a.es, Entry(p, |v|, k))
  }

  lemma AttemptCases(a: Arena, s: seq<Slot>, k: Key, v: Value)
    requires a.Valid() && |v| >= 1 && Contiguous(a.table, a.es, a.total, k, |v|)
    ensures AttemptOutcome(a, s, k, v)
  {
    var p, n := Spot(a.table, a.es, a.total, k, |v|), Blocks(|v|, a.es);
    if p < 0 || p + n > a.total {
      assert Attempt(a, k, v) == (StatusError, a);
    } else {
      AttemptPlaces(a, k, v);
    }
  }

  lemma AttemptPlaces(a: Arena, k: Key, v: Value)
    requires a.Valid() && |v| >= 1 && Contiguous(a.table, a.es, a.total, k, |v|)
    requires 0 <= Spot(a.table, a.es, a.total, k, |v|) <= a.total - Blocks(|v|, a.es)
    ensures var p := Spot(a.table, a.es, a.total, k, |v|);
            && FreeRun(Remove(a.table, k), a.es, a.total, p, Blocks(|v|, a.es))
            && Offset(p, a.es) + |v| <= |a.bytes|
            && Attempt(a, k, v)
               == (StatusOk, a.(table := Put(a.table, k, |v|, p), bytes := Write(a.bytes, Offset(p, a.es), v)))
  {
    SpotIsFree(a.table, a.es, a.total, k, |v|);
    ByteLimitIsSlotLimit(Spot(a.table, a.es, a.total, k, |v|), |v|, a.es, a.total);
  }

  /** Entry i, once deleted, is placed right where the moved entries end. */
  lemma StagePlace(t: seq<Entry>, es: nat, total: nat, i: nat)
    requires es >= 1 && WellPlaced(t, es, total) && i < |t|
    ensures Stage(t, es, i)[i] == t[i] && t[i].size >= 1
    ensures var w, p := Remove(Stage(t, es, i), t[i].key), Used(t[..i], es);
            && Spot(w, es, total, t[i].key, t[i].size) == p
            && Remove(w, t[i].key) == w
            && FreeRun(w, es, total, p, Blocks(t[i].size, es))
            && Put(w, t[i].key, t[i].size, p) == Stage(t, es, i + 1)
  {
    assert t[i] in t && Inside(t[i], es, total);
    StageAt(t, es, i, i);
    StageWellPlaced(t, es, total, i);
    StageStep(t, es, total, i);
    StageFirstFit(t, es, total, i);
    var w := Remove(Stage(t, es, i), t[i].key);
    RemoveWellPlaced(Stage(t, es, i), es, total, t[i].key);
    RemoveElements(Stage(t, es, i), t[i].key);
    AbsentKeyAgrees(w, es, total, t[i].key, t[i].size);
  }

  lemma CountNext(slots: seq<Slot>, k: Key, i: nat)
    requires i < |slots|
    ensures CountKey(slots[..i + 1], k) == CountKey(slots[..i], k) + if slots[i].key == k then 1 else 0
  {
    assert slots[..i + 1][..i] == slots[..i];
  }

  /** The slots when the first `i` of them have been looked at. */
  ghost function ClearedTo(slots: seq<Slot>, k: Key, n: nat, i: nat): (r: seq<Slot>)
    requires i <= |slots|
    ensures |r| == |slots|
  {
    Cleared(slots, k, n)[..i] + slots[i..]
  }

  lemma StartCleared(slots: seq<Slot>, k: Key, n: nat)
    ensures ClearedTo(slots, k, n, 0) == slots && CountKey(slots[..0], k) == 0
  {
  }

  lemma ClearedNext(slots: seq<Slot>, k: Key, n: nat, i: nat)
    requires i < |slots|
    ensures ClearedTo(slots, k, n, i)[i] == slots[i]
    ensures ClearedTo(slots, k, n, i + 1)
         == if slots[i].key == k && CountKey(slots[..i], k) < n then ClearedTo(slots, k, n, i)[i := CLEARED]
            else ClearedTo(slots, k, n, i)
  {
    assert Cleared(slots, k, n)[..i + 1] == Cleared(slots, k, n)[..i] + [Cleared(slots, k, n)[i]];
  }

  /** Once `n` slots have been cleared, or all have been seen, the rest stay as they are. */
  lemma ClearedFull(slots: seq<Slot>, k: Key, n: nat, i: nat)
    requires i <= |slots| && (i < |slots| ==> CountKey(slots[..i], k) == n)
    ensures ClearedTo(slots, k, n, i) == Cleared(slots, k, n)
  {
    forall q | i <= q < |slots|
      ensures Cleared(slots, k, n)[q] == slots[q]
    {
      CountGrows(slots, k, i, q);
    }
  }

  /** Updating an entry where it stands gives the same entries as taking it out and putting it back. */
  lemma UpdateSorts(t: seq<Entry>, es: nat, total: nat, i: nat, p: int, size: nat)
    requires es >= 1 && WellPlaced(t, es, total) && i < |t| && size >= 1
    requires FreeRun(Remove(t, t[i].key), es, total, p, Blocks(size, es))
    ensures var u, target := t[i := Entry(p, size, t[i].key)], Put(t, t[i].key, size, p);
            && multiset(u) == multiset(target)
            && (forall a, b :: 0 <= a < b < |target| ==> target[a].number < target[b].number)
            && (p == t[i].number ==> u == target)
  {
    var e := Entry(p, size, t[i].key);
    var u, target := t[i := e], Put(t, t[i].key, size, p);
    IndexOfUnique(t, i);
    PutWellPlaced(t, es, total, t[i].key, size, p);
    NumbersAscend(target, es, total);
    InsertElements(Without(t, i), e);
    UpdateMultiset(t, i, e);
    if p == t[i].number {
      ResizeAscending(t, es, total, i, size);
      StrictOrderUnique(target, u);
    }
  }

  lemma PutUsed(t: seq<Entry>, es: nat, total: nat, k: Key, size: nat, p: int)
    requires es >= 1 && WellPlaced(t, es, total) && Has(t, k) && size >= 1
    requires FreeRun(Remove(t, k), es, total, p, Blocks(size, es))
    ensures Used(Put(t, k, size, p), es) == Used(t, es) - Blocks(EntryOf(t, k).size, es) + Blocks(size, es)
  {
    RemoveWellPlaced(t, es, total, k);
    PutWellPlaced(t, es, total, k, size, p);
  }

  lemma ResizeAscending(t: seq<Entry>, es: nat, total: nat, i: nat, size: nat)
    requires es >= 1 && WellPlaced(t, es, total) && i < |t|
    ensures Ascending(t[i := t[i].(size := size)])
  {
    NumbersAscend(t, es, total);
  }

  lemma UpdateMultiset(t: seq<Entry>, i: nat, e: Entry)
    requires i < |t|
    ensures multiset(t[i := e]) == multiset(Without(t, i)) + multiset{e}
  {
    assert t[i := e] == t[..i] + [e] + t[i + 1..];
  }
}
