/** The steps of the Planificador on values, and that each of them keeps the queues a
    partition of the live ESIs and the blocked ESIs the ones with a waiter entry. */
module PlannerSteps {
  import opened Locks
  import opened Lists
  import opened Release
  import opened PlannerTables

  /** The queues and tables, and whether the release of a stored key is pending: the flag is
      one and the same for STOREs and for the releases of a dead ESI, which clear it. */
  datatype Sched = Sched(newQueue: seq<int>, execution: seq<int>, bursts: seq<int>, t: Tables, unlock: bool)

  function Rest(s: Sched): multiset<int> {
    multiset(s.newQueue) + multiset(s.execution)
  }

  ghost predicate SchedInv(s: Sched) {
    TablesInv(s.t, Rest(s), s.bursts) && |s.execution| <= 1
  }

  /** The invariant in terms of single ESIs: a live one is in exactly one queue, once, a dead
      one in none, and an ESI is blocked exactly when it has one waiter entry. */
  lemma InvMeans(s: Sched, e: int)
    requires SchedInv(s)
    ensures multiset(s.newQueue)[e] + multiset(s.t.ready)[e] + multiset(s.execution)[e] + multiset(s.t.blocked)[e]
            == if e in s.bursts then 1 else 0
    ensures var w := s.t.waiters;
            if e in s.t.blocked
            then exists i :: 0 <= i < |w| && w[i].esi == e && forall j :: 0 <= j < |w| && w[j].esi == e ==> j == i
            else forall j :: 0 <= j < |w| ==> w[j].esi != e
  {
    NoRepeatsCount(s.bursts, e);
    assert multiset(s.bursts)[e] == multiset(s.t.ready)[e] + multiset(s.t.blocked)[e] + Rest(s)[e];
    if e in s.t.blocked {
      assert Waits(s.t.waiters, e);
      var i :| 0 <= i < |s.t.waiters| && s.t.waiters[i].esi == e;
      assert forall j :: 0 <= j < |s.t.waiters| && s.t.waiters[j].esi == e ==> j == i;
    }
  }

  // ----- the loss of an ESI -----

  /** The tables of an ESI taken out of the ready and blocked queues. */
  function Buried(t: Tables, e: int): Tables {
    t.(ready := TakeOut(t.ready, e), blocked := TakeOut(t.blocked, e))
  }

  /** `sock_my_port`. */
  function Socked(s: Sched, e: int): Sched {
    Sched(TakeOut(s.newQueue, e), TakeOut(s.execution, e), TakeOut(s.bursts, e), Released(Buried(s.t, e), e),
          s.unlock && !Holds(s.t.locks, e))
  }

  function SockAll(s: Sched, es: seq<int>): Sched {
    if es == [] then s else Socked(SockAll(s, es[..|es| - 1]), es[|es| - 1])
  }

  /** What `sock_my_port` puts on the queue of the finished: the ESI, for each queue it was in. */
  function Corpse(s: Sched, e: int): seq<int> {
    (if e in s.newQueue then [e] else []) + (if e in s.t.ready then [e] else [])
    + (if e in s.execution then [e] else []) + if e in s.t.blocked then [e] else []
  }

  function Corpses(s: Sched, es: seq<int>): seq<int> {
    if es == [] then [] else Corpses(s, es[..|es| - 1]) + Corpse(SockAll(s, es[..|es| - 1]), es[|es| - 1])
  }

  lemma TakeOutAbsent(q: seq<int>, e: int)
    ensures e !in q ==> TakeOut(q, e) == q
  {
  }

  lemma MinusApart(a: multiset<int>, b: multiset<int>, e: int)
    requires a[e] + b[e] <= 1
    ensures (a - multiset{e}) + (b - multiset{e}) == (a + b) - multiset{e}
  {
  }

  /** A live ESI taken out of every queue is leaving. */
  lemma BuryLeaves(s: Sched, e: int)
    requires SchedInv(s) && e in s.bursts
    ensures Leaving(Buried(s.t, e), e, multiset(TakeOut(s.newQueue, e)) + multiset(TakeOut(s.execution, e)), s.bursts)
  {
    var n, x := multiset(s.newQueue), multiset(s.execution);
    var t := s.t;
    PartsApart(t, n + x, s.bursts);
    TakeOutMultiset(s.newQueue, e);
    TakeOutMultiset(s.execution, e);
    TakeOutMultiset(t.ready, e);
    TakeOutMultiset(t.blocked, e);
    TakeOutElements(t.blocked, e);
    assert multiset(t.ready)[e] + multiset(t.blocked)[e] + (n + x)[e] <= 1;
    MinusApart(n, x, e);
    MinusApart(multiset(t.ready), multiset(t.blocked), e);
    MinusApart(multiset(t.ready) + multiset(t.blocked), n + x, e);
  }

  lemma SockKeeps(s: Sched, e: int)
    requires SchedInv(s) && e in s.bursts
    ensures SchedInv(Socked(s, e))
    ensures Socked(s, e).t.locks == Keep(s.t.locks, LockNotOf(e))
    ensures forall x :: x in Socked(s, e).bursts <==> x in s.bursts && x != e
  {
    BuryLeaves(s, e);
    ReleaseKeeps(Buried(s.t, e), e, multiset(TakeOut(s.newQueue, e)) + multiset(TakeOut(s.execution, e)), s.bursts);
    ReleaseExact(Buried(s.t, e), e);
    TakeOutElements(s.bursts, e);
  }

  /** A live ESI is in one queue, so it is put there once. */
  lemma CorpseOnce(s: Sched, e: int)
    requires SchedInv(s) && e in s.bursts
    ensures Corpse(s, e) == [e]
  {
    InvMeans(s, e);
    assert e in s.newQueue <==> multiset(s.newQueue)[e] > 0;
    assert e in s.t.ready <==> multiset(s.t.ready)[e] > 0;
    assert e in s.execution <==> multiset(s.execution)[e] > 0;
    assert e in s.t.blocked <==> multiset(s.t.blocked)[e] > 0;
  }

  /** Several live ESIs that are lost are put there in the order in which they are lost. */
  lemma {:induction false} CorpsesAre(s: Sched, es: seq<int>)
    requires SchedInv(s) && NoRepeats(es) && forall e :: e in es ==> e in s.bursts
    ensures Corpses(s, es) == es
  {
    if es != [] {
      var front, e := es[..|es| - 1], es[|es| - 1];
      assert es == front + [e];
      CorpsesAre(s, front);
      SockAllKeeps(s, front);
      CorpseOnce(SockAll(s, front), e);
    }
  }

  predicate NoneHolds(locks: seq<Lock>, es: seq<int>): (b: bool)
    ensures b <==> forall e :: e in es ==> !Holds(locks, e)
  {
    es == [] || (NoneHolds(locks, es[..|es| - 1]) && !Holds(locks, es[|es| - 1]))
  }

  lemma HoldsIn(locks: seq<Lock>, e: int)
    ensures Holds(locks, e) <==> exists l :: l in locks && l.esi == e
  {
    if Holds(locks, e) {
      var j :| 0 <= j < |locks| && locks[j].esi == e;
      assert locks[j] in locks;
    }
  }

  /** Losing several live ESIs keeps the invariant, and leaves exactly the locks of the others. */
  lemma {:induction false} SockAllKeeps(s: Sched, es: seq<int>)
    requires SchedInv(s) && NoRepeats(es) && forall e :: e in es ==> e in s.bursts
    ensures SchedInv(SockAll(s, es))
    ensures forall l :: l in SockAll(s, es).t.locks <==> l in s.t.locks && l.esi !in es
    ensures forall x :: x in SockAll(s, es).bursts <==> x in s.bursts && x !in es
  {
    if es != [] {
      var front, e := es[..|es| - 1], es[|es| - 1];
      assert es == front + [e];
      SockAllKeeps(s, front);
      SockKeeps(SockAll(s, front), e);
    }
  }

  /** A pending release stays pending exactly if none of the lost ESIs held a key. */
  lemma {:induction false} SockAllUnlock(s: Sched, es: seq<int>)
    requires SchedInv(s) && NoRepeats(es) && forall e :: e in es ==> e in s.bursts
    ensures SockAll(s, es).unlock == (s.unlock && NoneHolds(s.t.locks, es))
  {
    if es != [] {
      var front, e := es[..|es| - 1], es[|es| - 1];
      assert es == front + [e];
      SockAllUnlock(s, front);
      SockAllKeeps(s, front);
      HoldsIn(s.t.locks, e);
      HoldsIn(SockAll(s, front).t.locks, e);
    }
  }

  // ----- releasing keys -----

  function Woke(s: Sched, k: Key, wasStore: bool): Sched {
    s.(t := Unlock(s.t, k, wasStore))
  }

  /** Releasing keys by console: each wakes its first waiter, without dropping the lock. */
  function WakeAll(s: Sched, ks: seq<Key>): Sched {
    if ks == [] then s else Woke(WakeAll(s, ks[..|ks| - 1]), ks[|ks| - 1], false)
  }

  lemma WakeKeeps(s: Sched, k: Key, wasStore: bool)
    requires SchedInv(s)
    ensures SchedInv(Woke(s, k, wasStore))
    ensures forall l :: l in Woke(s, k, wasStore).t.locks ==> l in s.t.locks
  {
    UnlockKeeps(s.t, k, wasStore, Rest(s), s.bursts);
    DropLockElements(s.t.locks, k);
  }

  lemma {:induction false} WakeAllKeeps(s: Sched, ks: seq<Key>)
    requires SchedInv(s)
    ensures SchedInv(WakeAll(s, ks))
    ensures forall l :: l in WakeAll(s, ks).t.locks ==> l in s.t.locks
    ensures WakeAll(s, ks).bursts == s.bursts && WakeAll(s, ks).execution == s.execution
  {
    if ks != [] {
      WakeAllKeeps(s, ks[..|ks| - 1]);
      WakeKeeps(WakeAll(s, ks[..|ks| - 1]), ks[|ks| - 1], false);
    }
  }

  // ----- arrivals, blocking, ending, election -----

  function Arrived(s: Sched, e: int): Sched {
    s.(newQueue := s.newQueue + [e], bursts := s.bursts + [e])
  }

  function Admitted(s: Sched): Sched {
    s.(newQueue := [], t := s.t.(ready := s.t.ready + s.newQueue))
  }

  /** An ESI starts to wait for a key. */
  function Parked(s: Sched, w: Waiter): Sched {
    s.(execution := TakeOut(s.execution, w.esi),
       t := s.t.(ready := TakeOut(s.t.ready, w.esi), blocked := s.t.blocked + [w.esi], waiters := s.t.waiters + [w]))
  }

  function Locked(s: Sched, l: Lock): Sched {
    s.(t := s.t.(locks := s.t.locks + [l]))
  }

  /** The end of a script. */
  function Ended(s: Sched, e: int): Sched {
    Sched(s.newQueue, TakeOut(s.execution, e), TakeOut(s.bursts, e), Released(s.t, e), s.unlock && !Holds(s.t.locks, e))
  }

  /** One of the ready ESIs is put in execution; `order` is the ready queue as it was sorted. */
  function Elected(s: Sched, order: seq<int>): Sched
    requires order != []
  {
    s.(execution := s.execution + [order[0]], t := s.t.(ready := TakeOut(order, order[0])))
  }

  lemma ArriveKeeps(s: Sched, e: int)
    requires SchedInv(s) && e >= 0 && e !in s.bursts
    ensures SchedInv(Arrived(s, e))
  {
    assert multiset(s.newQueue + [e]) == multiset(s.newQueue) + multiset{e};
    assert multiset(s.bursts + [e]) == multiset(s.bursts) + multiset{e};
  }

  lemma AdmitKeeps(s: Sched)
    requires SchedInv(s)
    ensures SchedInv(Admitted(s))
  {
    assert multiset(s.t.ready + s.newQueue) == multiset(s.t.ready) + multiset(s.newQueue);
  }

  lemma WaitsAppend(waiters: seq<Waiter>, w: Waiter)
    ensures forall e :: Waits(waiters + [w], e) <==> Waits(waiters, e) || e == w.esi
  {
    var both := waiters + [w];
    forall e
      ensures Waits(both, e) <==> Waits(waiters, e) || e == w.esi
    {
      assert both[|waiters|] == w;
      if Waits(waiters, e) {
        var j :| 0 <= j < |waiters| && waiters[j].esi == e;
        assert both[j].esi == e;
      }
    }
  }

  /** Executing or ready. */
  predicate Active(s: Sched, e: int) {
    e in s.execution || e in s.t.ready
  }

  lemma ParkKeeps(s: Sched, w: Waiter)
    requires SchedInv(s) && Active(s, w.esi) && Lock(w.key, w.esi) !in s.t.locks
    ensures SchedInv(Parked(s, w))
  {
    var t, e := s.t, w.esi;
    ActiveElsewhere(s, e);
    TakeOutMultiset(s.execution, e);
    TakeOutMultiset(t.ready, e);
    assert multiset(t.blocked + [e]) == multiset(t.blocked) + multiset{e};
    ParkedMultiset(multiset(t.ready), multiset(t.blocked), multiset(s.newQueue), multiset(s.execution), e);
    WaitsAppend(t.waiters, w);
    WaitersAppend(t.locks, t.waiters, w);
  }

  /** An executing or ready ESI is in no other queue and waits for nothing. */
  lemma ActiveElsewhere(s: Sched, e: int)
    requires SchedInv(s) && Active(s, e)
    ensures multiset(s.t.ready)[e] + multiset(s.execution)[e] == 1
    ensures e in s.bursts && e !in s.t.blocked && !Waits(s.t.waiters, e)
  {
    PartsApart(s.t, Rest(s), s.bursts);
    assert e in s.execution ==> e in multiset(s.execution);
    assert e in s.t.ready ==> e in multiset(s.t.ready);
    assert e !in multiset(s.t.blocked);
  }

  lemma ParkedMultiset(r: multiset<int>, b: multiset<int>, n: multiset<int>, x: multiset<int>, e: int)
    requires r[e] + x[e] == 1
    ensures (r - multiset{e}) + (b + multiset{e}) + (n + (x - multiset{e})) == r + b + (n + x)
  {
  }

  lemma WaitersAppend(locks: seq<Lock>, waiters: seq<Waiter>, w: Waiter)
    requires UniqueWaiters(waiters) && NoSelfWait(locks, waiters)
    requires !Waits(waiters, w.esi) && Lock(w.key, w.esi) !in locks
    ensures UniqueWaiters(waiters + [w]) && NoSelfWait(locks, waiters + [w])
  {
  }

  lemma LockKeeps(s: Sched, l: Lock)
    requires SchedInv(s) && !IsLocked(s.t.locks, l.key)
    requires l.esi == SYSTEM || (l.esi in s.bursts && l.esi !in s.t.blocked)
    ensures SchedInv(Locked(s, l))
  {
    PartsApart(s.t, Rest(s), s.bursts);
    WaitsIn(s.t.waiters);
    forall w | w in s.t.waiters
      ensures w.esi != l.esi
    {
      assert Waits(s.t.waiters, w.esi);
    }
  }

  lemma EndKeeps(s: Sched, e: int)
    requires SchedInv(s) && s.execution == [e]
    ensures SchedInv(Ended(s, e))
  {
    PartsApart(s.t, Rest(s), s.bursts);
    TakeOutMultiset(s.execution, e);
    assert e in multiset(s.execution);
    ReleaseKeeps(s.t, e, multiset(s.newQueue) + multiset(TakeOut(s.execution, e)), s.bursts);
  }

  /** An election puts the head of the sorted queue in execution and leaves the rest as it stands. */
  lemma ElectTakesHead(s: Sched, order: seq<int>)
    requires order != []
    ensures var v := Elected(s, order);
            && v.execution == s.execution + [order[0]] && v.t.ready == order[1..]
            && v.newQueue == s.newQueue && v.bursts == s.bursts && v.unlock == s.unlock
            && v.t.blocked == s.t.blocked && v.t.locks == s.t.locks && v.t.waiters == s.t.waiters
  {
    assert Is(order[0])(order[0]);
    assert order[..0] == [];
  }

  lemma ElectKeeps(s: Sched, order: seq<int>)
    requires SchedInv(s) && s.execution == [] && order != [] && multiset(order) == multiset(s.t.ready)
    ensures SchedInv(Elected(s, order))
  {
    TakeOutMultiset(order, order[0]);
    assert order[0] in multiset(order);
    assert s.execution + [order[0]] == [order[0]];
  }

  // ----- blocking by console -----

  /** `block_by_console_procedure` for one ESI that is executing or ready: it takes the key
      if nobody has it, and waits for it otherwise. */
  function BlockOne(s: Sched, w: Waiter): Sched {
    if IsLocked(s.t.locks, w.key) then Parked(s, w) else Locked(s, Lock(w.key, w.esi))
  }

  function BlockAll(s: Sched, ws: seq<Waiter>): Sched {
    if ws == [] then s else BlockOne(BlockAll(s, ws[..|ws| - 1]), ws[|ws| - 1])
  }

  /** A key asked for an ESI that does not exist is taken by the system if nobody has it. */
  function OrphanOne(s: Sched, w: Waiter): Sched {
    if w.esi in s.bursts || IsLocked(s.t.locks, w.key) then s else Locked(s, Lock(w.key, SYSTEM))
  }

  function OrphanAll(s: Sched, ws: seq<Waiter>): Sched {
    if ws == [] then s else OrphanOne(OrphanAll(s, ws[..|ws| - 1]), ws[|ws| - 1])
  }

  /** What was asked by console came true: the ESI has the key, or it waits for it. */
  predicate Settled(s: Sched, w: Waiter) {
    Lock(w.key, w.esi) in s.t.locks || (w in s.t.waiters && w.esi in s.t.blocked)
  }

  ghost predicate OnePerEsi(ws: seq<Waiter>) {
    forall i, j :: 0 <= i < j < |ws| ==> ws[i].esi != ws[j].esi
  }

  lemma BlockOneKeeps(s: Sched, w: Waiter)
    requires SchedInv(s) && Active(s, w.esi) && Lock(w.key, w.esi) !in s.t.locks
    ensures SchedInv(BlockOne(s, w)) && Settled(BlockOne(s, w), w)
    ensures forall l :: l in BlockOne(s, w).t.locks ==> l in s.t.locks || l.esi == w.esi
    ensures forall e :: e != w.esi && Active(s, e) ==> Active(BlockOne(s, w), e)
    ensures BlockOne(s, w).bursts == s.bursts
  {
    ActiveElsewhere(s, w.esi);
    if IsLocked(s.t.locks, w.key) {
      ParkKeeps(s, w);
      PartsApart(s.t, Rest(s), s.bursts);
      RemoveIsKeep(s.execution, Is(w.esi));
      TakeOutElements(s.t.ready, w.esi);
    } else {
      LockKeeps(s, Lock(w.key, w.esi));
    }
  }

  lemma BlockOneSettled(s: Sched, w: Waiter, v: Waiter)
    requires Settled(s, v)
    ensures Settled(BlockOne(s, w), v)
  {
  }

  lemma {:induction false} BlockAllKeeps(s: Sched, ws: seq<Waiter>)
    requires SchedInv(s) && OnePerEsi(ws)
    requires forall w :: w in ws ==> Active(s, w.esi) && Lock(w.key, w.esi) !in s.t.locks
    ensures SchedInv(BlockAll(s, ws)) && BlockAll(s, ws).bursts == s.bursts
    ensures forall w :: w in ws ==> Settled(BlockAll(s, ws), w)
    ensures forall l :: l in BlockAll(s, ws).t.locks ==> l in s.t.locks || exists w :: w in ws && w.esi == l.esi
    ensures forall e :: Active(s, e) && (forall w :: w in ws ==> w.esi != e) ==> Active(BlockAll(s, ws), e)
  {
    if ws != [] {
      var front, w := ws[..|ws| - 1], ws[|ws| - 1];
      assert ws == front + [w];
      assert forall v :: v in front ==> v in ws && v.esi != w.esi;
      BlockAllKeeps(s, front);
      var m := BlockAll(s, front);
      BlockOneKeeps(m, w);
      forall v | v in front
        ensures Settled(BlockAll(s, ws), v)
      {
        BlockOneSettled(m, w, v);
      }
    }
  }

  lemma OrphanOneKeeps(s: Sched, w: Waiter)
    requires SchedInv(s)
    ensures SchedInv(OrphanOne(s, w)) && s.t.locks <= OrphanOne(s, w).t.locks
    ensures w.esi !in s.bursts ==> IsLocked(OrphanOne(s, w).t.locks, w.key)
  {
    if w.esi !in s.bursts && !IsLocked(s.t.locks, w.key) {
      LockKeeps(s, Lock(w.key, SYSTEM));
      assert OrphanOne(s, w).t.locks[|s.t.locks|] == Lock(w.key, SYSTEM);
    }
  }

  lemma {:induction false} OrphanAllKeeps(s: Sched, ws: seq<Waiter>)
    requires SchedInv(s)
    ensures SchedInv(OrphanAll(s, ws)) && s.t.locks <= OrphanAll(s, ws).t.locks
    ensures OrphanAll(s, ws) == s.(t := s.t.(locks := OrphanAll(s, ws).t.locks))
  {
    if ws != [] {
      OrphanAllKeeps(s, ws[..|ws| - 1]);
      OrphanOneKeeps(OrphanAll(s, ws[..|ws| - 1]), ws[|ws| - 1]);
    }
  }
}
