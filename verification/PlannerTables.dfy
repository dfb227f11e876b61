/** The invariant of the Planificador's queues and tables, and the table operations that keep it. */
module PlannerTables {
  import opened Locks
  import opened Lists
  import opened Release

  /** The live ESIs are the ones in the queues, each in one place; `rest` are the queues
      that the tables do not hold. An ESI is blocked exactly when it has one waiter entry.
      Keys have one owner, a live ESI or the system; nobody waits for a key of its own. */
  ghost predicate TablesInv(t: Tables, rest: multiset<int>, bursts: seq<int>) {
    && multiset(t.ready) + multiset(t.blocked) + rest == multiset(bursts)
    && NoRepeats(bursts)
    && (forall e :: e in bursts ==> e >= 0)
    && UniqueWaiters(t.waiters)
    && (forall e :: e in t.blocked <==> Waits(t.waiters, e))
    && UniqueLocks(t.locks)
    && NoSelfWait(t.locks, t.waiters)
    && (forall l :: l in t.locks ==> l.esi == SYSTEM || l.esi in bursts)
  }

  ghost predicate NoSelfWait(locks: seq<Lock>, waiters: seq<Waiter>) {
    forall l, w :: l in locks && w in waiters && l.esi == w.esi ==> l.key != w.key
  }

  // ----- multisets without repetition -----

  lemma {:induction false} NoRepeatsCount(q: seq<int>, e: int)
    requires NoRepeats(q)
    ensures multiset(q)[e] == if e in q then 1 else 0
  {
    if q != [] {
      var front := q[..|q| - 1];
      NoRepeatsCount(front, e);
      assert q == front + [q[|q| - 1]];
    }
  }

  lemma {:induction false} CountNoRepeats(q: seq<int>)
    requires forall e :: multiset(q)[e] <= 1
    ensures NoRepeats(q)
  {
    if q != [] {
      var front, x := q[..|q| - 1], q[|q| - 1];
      assert q == front + [x];
      assert multiset(q)[x] == multiset(front)[x] + 1;
      assert forall e :: multiset(front)[e] <= multiset(q)[e];
      CountNoRepeats(front);
      assert x !in multiset(front);
    }
  }

  /** Parts of a list without repetitions have none, and nothing is in two of them. */
  lemma PartsApart(t: Tables, rest: multiset<int>, bursts: seq<int>)
    requires TablesInv(t, rest, bursts)
    ensures NoRepeats(t.ready) && NoRepeats(t.blocked)
    ensures forall e :: multiset(t.ready)[e] + multiset(t.blocked)[e] + rest[e] <= 1
    ensures forall e :: e in bursts <==> e in t.ready || e in t.blocked || e in rest
  {
    forall e
      ensures multiset(t.ready)[e] + multiset(t.blocked)[e] + rest[e] == multiset(bursts)[e] <= 1
      ensures e in bursts <==> e in t.ready || e in t.blocked || e in rest
    {
      NoRepeatsCount(bursts, e);
      assert e in multiset(bursts) <==> e in bursts;
      assert e in multiset(t.ready) <==> e in t.ready;
      assert e in multiset(t.blocked) <==> e in t.blocked;
    }
    CountNoRepeats(t.ready);
    CountNoRepeats(t.blocked);
  }

  lemma TakeOutMultiset(q: seq<int>, e: int)
    ensures multiset(TakeOut(q, e)) == multiset(q) - multiset{e}
  {
    RemoveMultiset(q, Is(e));
  }

  lemma TakeOutElements(q: seq<int>, e: int)
    requires NoRepeats(q)
    ensures NoRepeats(TakeOut(q, e)) && forall x :: x in TakeOut(q, e) <==> x in q && x != e
  {
    RemoveIsKeep(q, Is(e));
    forall i, j | 0 <= i < j < |TakeOut(q, e)|
      ensures TakeOut(q, e)[i] != TakeOut(q, e)[j]
    {
    }
  }

  /** Filtering victims out of a list takes each of them away once. */
  lemma KeepMultiset(q: seq<int>, gone: seq<int>)
    requires NoRepeats(q) && NoRepeats(gone) && forall e :: e in gone ==> e in q
    ensures multiset(Keep(q, NotIn(gone))) == multiset(q) - multiset(gone)
    ensures NoRepeats(Keep(q, NotIn(gone)))
  {
    var r := Keep(q, NotIn(gone));
    forall i, j | 0 <= i < j < |r|
      ensures r[i] != r[j]
    {
      KeepAtMostOne(q, NotIn(gone), Is(r[i]));
    }
    forall e
      ensures multiset(r)[e] == (multiset(q) - multiset(gone))[e]
    {
      NoRepeatsCount(q, e);
      NoRepeatsCount(gone, e);
      NoRepeatsCount(r, e);
    }
  }

  // ----- lists that lose elements -----

  lemma DropLockElements(locks: seq<Lock>, k: Key)
    requires UniqueLocks(locks)
    ensures UniqueLocks(DropLock(locks, k)) && forall l :: l in DropLock(locks, k) <==> l in locks && l.key != k
  {
    RemoveIsKeep(locks, LockOn(k));
  }

  lemma DropWaiterElements(waiters: seq<Waiter>, e: int)
    requires UniqueWaiters(waiters)
    ensures UniqueWaiters(DropWaiter(waiters, e))
    ensures forall w :: w in DropWaiter(waiters, e) <==> w in waiters && w.esi != e
    ensures forall x :: Waits(DropWaiter(waiters, e), x) <==> Waits(waiters, x) && x != e
  {
    RemoveIsKeep(waiters, WaiterOf(e));
    WaitsIn(waiters);
    WaitsIn(DropWaiter(waiters, e));
  }

  lemma WaitsIn(waiters: seq<Waiter>)
    ensures forall e :: Waits(waiters, e) <==> exists w :: w in waiters && w.esi == e
  {
    forall e
      ensures Waits(waiters, e) <==> exists w :: w in waiters && w.esi == e
    {
      if Waits(waiters, e) {
        var j :| 0 <= j < |waiters| && waiters[j].esi == e;
        assert waiters[j] in waiters;
      }
    }
  }

  // ----- releasing one key -----

  /** `update_blocked_esi_queue` keeps the invariant. */
  lemma UnlockKeeps(t: Tables, k: Key, wasStore: bool, rest: multiset<int>, bursts: seq<int>)
    requires TablesInv(t, rest, bursts)
    ensures TablesInv(Unlock(t, k, wasStore), rest, bursts)
  {
    DropLockElements(t.locks, k);
    FirstWaiterIn(t.waiters, k);
    var e := FirstWaiter(t.waiters, k);
    if e != [] {
      PartsApart(t, rest, bursts);
      WaitsIn(t.waiters);
      DropWaiterElements(t.waiters, e[0]);
      TakeOutMultiset(t.blocked, e[0]);
      TakeOutElements(t.blocked, e[0]);
      assert Waits(t.waiters, e[0]);
      assert multiset(t.ready + e) == multiset(t.ready) + multiset{e[0]};
    }
  }

  // ----- releasing an ESI -----

  /** The tables of an ESI that is out of every queue, with its waiter entry still there. */
  ghost predicate Leaving(t: Tables, e: int, rest: multiset<int>, bursts: seq<int>) {
    && multiset(t.ready) + multiset(t.blocked) + rest == multiset(bursts) - multiset{e}
    && NoRepeats(bursts) && e in bursts
    && (forall x :: x in bursts ==> x >= 0)
    && NoRepeats(t.blocked) && e !in t.blocked
    && UniqueWaiters(t.waiters)
    && (forall x :: x != e ==> (x in t.blocked <==> Waits(t.waiters, x)))
    && UniqueLocks(t.locks)
    && NoSelfWait(t.locks, t.waiters)
    && (forall l :: l in t.locks ==> l.esi == SYSTEM || l.esi in bursts)
  }

  /** `release_resources` of an ESI that leaves the queues restores the invariant without it. */
  lemma ReleaseKeeps(t: Tables, e: int, rest: multiset<int>, bursts: seq<int>)
    requires Leaving(t, e, rest, bursts)
    ensures TablesInv(Released(t, e), rest, TakeOut(bursts, e))
  {
    var ks := OwnedKeys(t.locks, e);
    var woken := Woken(t.waiters, ks);
    ReleaseExact(t, e);
    OwnedDistinct(t.locks, e);
    WokenDistinct(t.waiters, ks);
    WaitsIn(t.waiters);
    forall x | x in woken
      ensures x in t.blocked
    {
      WokenWait(t.waiters, ks, x);
    }
    KeepMultiset(t.blocked, woken);
    TakeOutMultiset(bursts, e);
    TakeOutElements(bursts, e);
    WokenMultiset(t.ready, t.blocked, woken);
    KeptWaiters(t.waiters, woken + [e]);
    KeptLocks(t.locks, e);
  }

  lemma WokenMultiset(ready: seq<int>, blocked: seq<int>, woken: seq<int>)
    requires NoRepeats(blocked) && NoRepeats(woken) && forall x :: x in woken ==> x in blocked
    ensures multiset(ready + woken) + (multiset(blocked) - multiset(woken)) == multiset(ready) + multiset(blocked)
  {
    forall x
      ensures multiset(woken)[x] <= multiset(blocked)[x]
    {
      NoRepeatsCount(woken, x);
      NoRepeatsCount(blocked, x);
    }
    assert multiset(ready + woken) == multiset(ready) + multiset(woken);
  }

  lemma KeptWaiters(waiters: seq<Waiter>, gone: seq<int>)
    requires UniqueWaiters(waiters)
    ensures UniqueWaiters(Keep(waiters, WaiterNotIn(gone)))
    ensures forall x :: Waits(Keep(waiters, WaiterNotIn(gone)), x) <==> Waits(waiters, x) && x !in gone
  {
    var r := Keep(waiters, WaiterNotIn(gone));
    forall i, j | 0 <= i < j < |r|
      ensures r[i].esi != r[j].esi
    {
      KeepAtMostOne(waiters, WaiterNotIn(gone), WaiterOf(r[i].esi));
    }
    WaitsIn(waiters);
    WaitsIn(r);
  }

  lemma KeptLocks(locks: seq<Lock>, e: int)
    requires UniqueLocks(locks)
    ensures UniqueLocks(Keep(locks, LockNotOf(e)))
  {
    var r := Keep(locks, LockNotOf(e));
    forall i, j | 0 <= i < j < |r|
      ensures r[i].key != r[j].key
    {
      KeepAtMostOne(locks, LockNotOf(e), LockOn(r[i].key));
    }
  }

  lemma {:induction false} WokenDistinct(waiters: seq<Waiter>, ks: seq<Key>)
    requires UniqueWaiters(waiters) && DistinctKeys(ks)
    ensures NoRepeats(Woken(waiters, ks))
  {
    if ks != [] {
      var front, k := ks[..|ks| - 1], ks[|ks| - 1];
      WokenDistinct(waiters, front);
      FirstWaiterIn(waiters, k);
      var e := FirstWaiter(waiters, k);
      if e != [] && e[0] in Woken(waiters, front) {
        WokenWait(waiters, front, e[0]);
        var j :| j in front && Waiter(e[0], j) in waiters;
        OneRequest(waiters, Waiter(e[0], k), Waiter(e[0], j));
        assert false;
      }
    }
  }
}
